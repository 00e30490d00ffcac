/** What resolution promises whoever types a target. */
module ResolveLaws {
  import opened Wrappers
  import opened Resolve

  // ----- Which guest -----

  datatype Rule = Rule(matches: Guest -> bool, shown: string)

  /** The rules that apply to an identifier, in the order they are tried. */
  function Rules(fold: Fold, identifier: string): seq<Rule> {
    NumberRules(identifier) + (TypeRules(CT, fold(identifier))
      + (TypeRules(VM, fold(identifier)) + [Rule(ByName(fold, identifier), identifier)]))
  }

  function NumberRules(identifier: string): seq<Rule> {
    match Atoi(identifier)
    case None => []
    case Some(vmid) => [Rule(ByNumber(vmid), identifier)]
  }

  function TypeRules(k: GuestType, lower: string): seq<Rule> {
    match Asked(k, lower)
    case None => []
    case Some(vmid) => [Rule(ByType(k, vmid), Prefix(k) + Itoa(vmid))]
  }

  function Answer(rules: seq<Rule>, guests: seq<Guest>, names: map<int, string>): Result<Guest, Problem> {
    if rules == [] then Err(GuestNotFound)
    else Decide(Matching(guests, rules[0].matches), rules[0].shown, names, Answer(rules[1..], guests, names))
  }

  lemma AnswerRule(rule: Rule, rest: seq<Rule>, guests: seq<Guest>, names: map<int, string>)
    ensures Answer([rule] + rest, guests, names)
         == Decide(Matching(guests, rule.matches), rule.shown, names, Answer(rest, guests, names))
    ensures Answer([] + rest, guests, names) == Answer(rest, guests, names)
  {
    assert ([rule] + rest)[1..] == rest && [] + rest == rest;
  }

  lemma ResolvesByRules(fold: Fold, identifier: string, guests: seq<Guest>, names: map<int, string>)
    ensures ResolveGuest(fold, identifier, guests, names) == Answer(Rules(fold, identifier), guests, names)
  {
    var lower := fold(identifier);
    var named := Rule(ByName(fold, identifier), identifier);
    assert [named] + [] == [named];
    AnswerRule(named, [], guests, names);
    TypeAnswers(VM, lower, [named], guests, names);
    TypeAnswers(CT, lower, TypeRules(VM, lower) + [named], guests, names);
    var rest := TypeRules(CT, lower) + (TypeRules(VM, lower) + [named]);
    AnswerRule(if Atoi(identifier).Some? then Rule(ByNumber(Atoi(identifier).value), identifier) else named,
      rest, guests, names);
  }

  lemma TypeAnswers(k: GuestType, lower: string, rest: seq<Rule>, guests: seq<Guest>, names: map<int, string>)
    ensures Answer(TypeRules(k, lower) + rest, guests, names)
         == TypeRule(k, lower, guests, names, Answer(rest, guests, names))
  {
    assert [] + rest == rest;
    match Asked(k, lower) {
      case None =>
      case Some(vmid) => AnswerRule(Rule(ByType(k, vmid), Prefix(k) + Itoa(vmid)), rest, guests, names);
    }
  }

  /** The rule at `k` is the first that matches any guest. */
  predicate Deciding(rules: seq<Rule>, guests: seq<Guest>, k: nat)
    requires k < |rules|
  {
    Matching(guests, rules[k].matches) != [] && forall j | 0 <= j < k :: Matching(guests, rules[j].matches) == []
  }

  lemma {:induction false} FirstDecides(rules: seq<Rule>, guests: seq<Guest>, names: map<int, string>, k: nat)
    requires k < |rules| && Deciding(rules, guests, k)
    ensures Answer(rules, guests, names)
         == Decide(Matching(guests, rules[k].matches), rules[k].shown, names, Err(GuestNotFound))
    decreases k
  {
    if k > 0 {
      assert Matching(guests, rules[0].matches) == [];
      assert forall j | 0 <= j < k - 1 :: rules[1..][j] == rules[j + 1];
      FirstDecides(rules[1..], guests, names, k - 1);
    }
  }

  lemma {:induction false} NoneDecides(rules: seq<Rule>, guests: seq<Guest>, names: map<int, string>)
    requires forall k | 0 <= k < |rules| :: Matching(guests, rules[k].matches) == []
    ensures Answer(rules, guests, names) == Err(GuestNotFound)
    decreases |rules|
  {
    if rules != [] {
      NoneDecides(rules[1..], guests, names);
    }
  }

  /** Resolution never guesses: of the first rule that matches anything a single match is the answer and
      several are reported, each with a hint; with no match at all the guest is not found. */
  lemma NeverGuesses(fold: Fold, identifier: string, guests: seq<Guest>, names: map<int, string>)
    ensures var rules, r := Rules(fold, identifier), ResolveGuest(fold, identifier, guests, names);
            && (forall k | 0 <= k < |rules| && Deciding(rules, guests, k) ::
                  var matches := Matching(guests, rules[k].matches);
                  r == if |matches| == 1 then Ok(matches[0]) else Err(Ambiguous(rules[k].shown, Hints(matches, names))))
            && ((forall k | 0 <= k < |rules| :: Matching(guests, rules[k].matches) == []) ==> r == Err(GuestNotFound))
  {
    var rules := Rules(fold, identifier);
    ResolvesByRules(fold, identifier, guests, names);
    forall k | 0 <= k < |rules| && Deciding(rules, guests, k)
      ensures Answer(rules, guests, names)
           == Decide(Matching(guests, rules[k].matches), rules[k].shown, names, Err(GuestNotFound))
    {
      FirstDecides(rules, guests, names, k);
    }
    if forall k | 0 <= k < |rules| :: Matching(guests, rules[k].matches) == [] {
      NoneDecides(rules, guests, names);
    }
  }

  // ----- The same, in the fields of the guests -----

  /** `at` lists the places of the guests that satisfy `p`, in order. */
  predicate Picks(at: seq<nat>, guests: seq<Guest>, p: Guest -> bool) {
    && (forall i, j | 0 <= i < j < |at| :: at[i] < at[j])
    && (forall i | 0 <= i < |at| :: at[i] < |guests| && p(guests[at[i]]))
    && (forall k | 0 <= k < |guests| && p(guests[k]) :: k in at)
  }

  predicate Within(at: seq<nat>, guests: seq<Guest>) {
    forall i | 0 <= i < |at| :: at[i] < |guests|
  }

  function At(guests: seq<Guest>, at: seq<nat>): (gs: seq<Guest>)
    requires Within(at, guests)
    ensures |gs| == |at|
  {
    seq(|at|, i requires 0 <= i < |at| => guests[at[i]])
  }

  /** One guest is the answer; several are an ambiguity with a hint for each. */
  function Outcome(guests: seq<Guest>, at: seq<nat>, shown: string, names: map<int, string>): Result<Guest, Problem>
    requires at != [] && Within(at, guests)
  {
    if |at| == 1 then Ok(guests[at[0]])
    else Err(Ambiguous(shown, seq(|at|, i requires 0 <= i < |at| => Qualified(guests[at[i]], names))))
  }

  lemma {:induction false} MatchingPicks(guests: seq<Guest>, p: Guest -> bool) returns (at: seq<nat>)
    ensures Picks(at, guests, p) && Matching(guests, p) == At(guests, at)
  {
    at := [];
    if guests != [] {
      var n := |guests| - 1;
      at := MatchingPicks(guests[..n], p);
      assert At(guests[..n], at) == At(guests, at);
      if p(guests[n]) {
        assert At(guests, at + [n]) == At(guests, at) + [guests[n]];
        at := at + [n];
      }
    }
  }

  /** What was found first, or what comes after it. */
  function FirstOf(guests: seq<Guest>, at: seq<nat>, shown: string, names: map<int, string>,
                   otherwise: Result<Guest, Problem>)
    : Result<Guest, Problem>
    requires Within(at, guests)
  {
    if at == [] then otherwise else Outcome(guests, at, shown, names)
  }

  lemma DecidesOutcome(guests: seq<Guest>, at: seq<nat>, shown: string, names: map<int, string>,
                       otherwise: Result<Guest, Problem>)
    requires Within(at, guests)
    ensures Decide(At(guests, at), shown, names, otherwise) == FirstOf(guests, at, shown, names, otherwise)
  {
    if |at| > 1 {
      assert Hints(At(guests, at), names) == Outcome(guests, at, shown, names).error.hints;
    }
  }

  /** What an identifier asks for when it is read as a type and a number. */
  function TypeAndNumber(prefix: string, lower: string): Option<GoInt> {
    if |lower| >= |prefix| && lower[..|prefix|] == prefix then Atoi(lower[|prefix|..]) else None
  }

  /** The places of the guests with the number the identifier reads as, if it reads as one. */
  predicate PicksNumber(at: seq<nat>, guests: seq<Guest>, asked: Option<GoInt>) {
    if asked.None? then at == [] else Picks(at, guests, (g: Guest) => g.number == asked.value)
  }

  /** The places of the guests of one kind with the number the identifier asks for. */
  predicate PicksType(at: seq<nat>, guests: seq<Guest>, k: GuestType, asked: Option<GoInt>) {
    if asked.None? then at == [] else Picks(at, guests, (g: Guest) => g.kind == k && g.number == asked.value)
  }

  lemma NumberPicked(asked: Option<GoInt>, shown: string, guests: seq<Guest>, names: map<int, string>,
                     otherwise: Result<Guest, Problem>) returns (at: seq<nat>)
    ensures PicksNumber(at, guests, asked) && Within(at, guests)
    ensures asked.Some? ==>
              Decide(Matching(guests, ByNumber(asked.value)), shown, names, otherwise)
              == FirstOf(guests, at, shown, names, otherwise)
    ensures asked.None? ==> otherwise == FirstOf(guests, at, shown, names, otherwise)
  {
    at := [];
    if asked.Some? {
      at := MatchingPicks(guests, ByNumber(asked.value));
      DecidesOutcome(guests, at, shown, names, otherwise);
    }
  }

  lemma NamePicked(fold: Fold, identifier: string, guests: seq<Guest>, names: map<int, string>) returns (at: seq<nat>)
    ensures Picks(at, guests, (g: Guest) => fold(g.name) == fold(identifier)) && Within(at, guests)
    ensures Decide(Matching(guests, ByName(fold, identifier)), identifier, names, Err(GuestNotFound))
         == FirstOf(guests, at, identifier, names, Err(GuestNotFound))
  {
    at := MatchingPicks(guests, ByName(fold, identifier));
    DecidesOutcome(guests, at, identifier, names, Err(GuestNotFound));
  }

  lemma AskedReads(k: GuestType, prefix: string, lower: string)
    requires prefix == Prefix(k)
    ensures Asked(k, lower) == TypeAndNumber(prefix, lower)
  {
  }

  /** The text an ambiguous type and number is shown as. */
  function Shown(prefix: string, asked: Option<GoInt>): string {
    if asked.None? then prefix else prefix + Itoa(asked.value)
  }

  lemma TypePicked(k: GuestType, prefix: string, lower: string, guests: seq<Guest>, names: map<int, string>,
                   otherwise: Result<Guest, Problem>) returns (at: seq<nat>)
    requires prefix == Prefix(k)
    ensures PicksType(at, guests, k, TypeAndNumber(prefix, lower)) && Within(at, guests)
    ensures TypeRule(k, lower, guests, names, otherwise)
         == FirstOf(guests, at, Shown(prefix, TypeAndNumber(prefix, lower)), names, otherwise)
  {
    AskedReads(k, prefix, lower);
    at := [];
    var asked := Asked(k, lower);
    if asked.Some? {
      at := MatchingPicks(guests, ByType(k, asked.value));
      DecidesOutcome(guests, at, prefix + Itoa(asked.value), names, otherwise);
    }
  }

  /** In the fields of the guests: an identifier that reads as a number is that guest's number if any
      guest has it; else one that reads as "ct" or "vm" and a number is the guest of that type and number
      if there is one, containers first; else it is a name, compared with case folded. Wherever one
      guest is found it is the answer, and where several are they are hinted at, each of them. */
  lemma ResolvesInFields(fold: Fold, identifier: string, guests: seq<Guest>, names: map<int, string>)
    returns (numbers: seq<nat>, cts: seq<nat>, vms: seq<nat>, named: seq<nat>)
    ensures PicksNumber(numbers, guests, Atoi(identifier)) && Within(numbers, guests)
    ensures PicksType(cts, guests, CT, TypeAndNumber("ct", fold(identifier))) && Within(cts, guests)
    ensures PicksType(vms, guests, VM, TypeAndNumber("vm", fold(identifier))) && Within(vms, guests)
    ensures Picks(named, guests, (g: Guest) => fold(g.name) == fold(identifier)) && Within(named, guests)
    ensures ResolveGuest(fold, identifier, guests, names)
         == FirstOf(guests, numbers, identifier, names,
              FirstOf(guests, cts, Shown("ct", TypeAndNumber("ct", fold(identifier))), names,
                FirstOf(guests, vms, Shown("vm", TypeAndNumber("vm", fold(identifier))), names,
                  FirstOf(guests, named, identifier, names, Err(GuestNotFound)))))
  {
    var lower := fold(identifier);
    named := NamePicked(fold, identifier, guests, names);
    var byName := Decide(Matching(guests, ByName(fold, identifier)), identifier, names, Err(GuestNotFound));
    vms := TypePicked(VM, "vm", lower, guests, names, byName);
    var byVM := TypeRule(VM, lower, guests, names, byName);
    cts := TypePicked(CT, "ct", lower, guests, names, byVM);
    var byCT := TypeRule(CT, lower, guests, names, byVM);
    numbers := NumberPicked(Atoi(identifier), identifier, guests, names, byCT);
  }

  // ----- The order of the lists does not matter -----

  lemma {:induction false} MatchingCounts(guests: seq<Guest>, p: Guest -> bool, x: Guest)
    ensures multiset(Matching(guests, p))[x] == if p(x) then multiset(guests)[x] else 0
  {
    if guests != [] {
      var n := |guests| - 1;
      MatchingCounts(guests[..n], p, x);
      assert guests == guests[..n] + [guests[n]];
    }
  }

  lemma MatchingSame(s: seq<Guest>, t: seq<Guest>, p: Guest -> bool)
    requires multiset(s) == multiset(t)
    ensures multiset(Matching(s, p)) == multiset(Matching(t, p))
  {
    forall x
      ensures multiset(Matching(s, p))[x] == multiset(Matching(t, p))[x]
    {
      MatchingCounts(s, p, x);
      MatchingCounts(t, p, x);
    }
  }

  /** The same guest, or the same complaint with the same hints in some order. */
  predicate Agree(a: Result<Guest, Problem>, b: Result<Guest, Problem>) {
    match (a, b)
    case (Ok(g), Ok(h)) => g == h
    case (Err(e), Err(f)) => SameProblem(e, f)
    case _ => false
  }

  predicate SameProblem(e: Problem, f: Problem) {
    if e.Ambiguous? && f.Ambiguous? then
      && e.shown == f.shown && |e.hints| == |f.hints|
      && (forall h | h in e.hints :: h in f.hints) && (forall h | h in f.hints :: h in e.hints)
    else e == f
  }

  lemma SameMatches(s: seq<Guest>, t: seq<Guest>, names: map<int, string>)
    requires multiset(s) == multiset(t)
    ensures |s| == |t| && (|s| == 1 ==> s == t)
    ensures forall h | h in Hints(s, names) :: h in Hints(t, names)
  {
    assert |s| == |multiset(s)| == |multiset(t)| == |t|;
    if |s| == 1 {
      assert s[0] in multiset(t);
    }
    forall h | h in Hints(s, names)
      ensures h in Hints(t, names)
    {
      var i :| 0 <= i < |s| && Hints(s, names)[i] == h;
      assert s[i] in multiset(t);
      var j :| 0 <= j < |t| && t[j] == s[i];
      assert Hints(t, names)[j] == h;
    }
  }

  lemma {:induction false} AnswersAgree(rules: seq<Rule>, s: seq<Guest>, t: seq<Guest>, names: map<int, string>)
    requires multiset(s) == multiset(t)
    ensures Agree(Answer(rules, s, names), Answer(rules, t, names))
    decreases |rules|
  {
    if rules != [] {
      AnswersAgree(rules[1..], s, t, names);
      var m, n := Matching(s, rules[0].matches), Matching(t, rules[0].matches);
      MatchingSame(s, t, rules[0].matches);
      SameMatches(m, n, names);
      SameMatches(n, m, names);
    }
  }

  /** Ids identify instances, and so do names up to folding; ids are not negative. */
  ghost predicate Catalogue(fold: Fold, instances: seq<Instance>) {
    forall a, b | a in instances && b in instances ::
      a.id >= 0 && (a.id == b.id ==> a == b) && (fold(a.name) == fold(b.name) ==> a == b)
  }

  lemma {:induction false} NamedIs(fold: Fold, instances: seq<Instance>, name: string)
    ensures match NamedInstance(fold, instances, name)
            case Some(i) => i in instances && NamesEqual(fold, i.name, name)
            case None => forall i | i in instances :: !NamesEqual(fold, i.name, name)
  {
    if instances != [] {
      var n := |instances| - 1;
      NamedIs(fold, instances[..n], name);
      assert instances == instances[..n] + [instances[n]];
    }
  }

  lemma {:induction false} ByIDIs(fold: Fold, instances: seq<Instance>)
    requires Catalogue(fold, instances)
    ensures var byID := InstancesByID(instances);
            && (forall i | i in instances :: i.id in byID && byID[i.id] == i)
            && (forall id | id in byID :: byID[id] in instances && byID[id].id == id)
  {
    if instances != [] {
      var n := |instances| - 1;
      var last := instances[n];
      assert instances == instances[..n] + [last];
      ByIDIs(fold, instances[..n]);
    }
  }

  lemma SameInstances(s: seq<Instance>, t: seq<Instance>)
    requires multiset(s) == multiset(t)
    ensures forall i :: i in s <==> i in t
  {
    forall i
      ensures i in s <==> i in t
    {
      assert i in s <==> i in multiset(s);
      assert i in t <==> i in multiset(t);
    }
  }

  lemma SameNamed(fold: Fold, s: seq<Instance>, t: seq<Instance>, name: string)
    requires Catalogue(fold, s) && multiset(s) == multiset(t)
    ensures NamedInstance(fold, s, name) == NamedInstance(fold, t, name)
  {
    SameInstances(s, t);
    NamedIs(fold, s, name);
    NamedIs(fold, t, name);
  }

  lemma SameByID(fold: Fold, s: seq<Instance>, t: seq<Instance>)
    requires Catalogue(fold, s) && multiset(s) == multiset(t)
    ensures InstancesByID(s) == InstancesByID(t)
  {
    SameInstances(s, t);
    ByIDIs(fold, s);
    ByIDIs(fold, t);
    var a, b := InstancesByID(s), InstancesByID(t);
    forall id
      ensures id in a <==> id in b
      ensures id in a ==> a[id] == b[id]
    {
      if id in a {
        assert a[id] in t;
      }
      if id in b {
        assert b[id] in s;
      }
    }
  }

  lemma GuestsAgree(fold: Fold, identifier: string, s: seq<Guest>, t: seq<Guest>, names: map<int, string>)
    requires multiset(s) == multiset(t)
    ensures Agree(ResolveGuest(fold, identifier, s, names), ResolveGuest(fold, identifier, t, names))
  {
    ResolvesByRules(fold, identifier, s, names);
    ResolvesByRules(fold, identifier, t, names);
    AnswersAgree(Rules(fold, identifier), s, t, names);
  }

  predicate SameAnswer(a: Result<Found, Problem>, b: Result<Found, Problem>) {
    match (a, b)
    case (Ok(x), Ok(y)) => x == y
    case (Err(e), Err(f)) => SameProblem(e, f)
    case _ => false
  }

  /** What a target resolves to depends on which guests and instances there are, not on their order. */
  lemma OrderIsImmaterial(fold: Fold, identifier: string, instName: string,
                          guests: seq<Guest>, guests': seq<Guest>, instances: seq<Instance>, instances': seq<Instance>)
    requires multiset(guests) == multiset(guests') && multiset(instances) == multiset(instances')
    requires Catalogue(fold, instances)
    ensures SameAnswer(ResolveGuestAndInstance(fold, identifier, instName, guests, instances),
                       ResolveGuestAndInstance(fold, identifier, instName, guests', instances'))
  {
    SameNamed(fold, instances, instances', instName);
    SameByID(fold, instances, instances');
    var wanted := NamedInstance(fold, instances, instName);
    var names := InstanceNames(instances);
    if instName != "" && wanted.Some? {
      NamedIs(fold, instances, instName);
      var here := OnInstance(wanted.value.id);
      MatchingSame(guests, guests', here);
      GuestsAgree(fold, identifier, Matching(guests, here), Matching(guests', here), names);
    } else {
      GuestsAgree(fold, identifier, guests, guests', names);
    }
  }

  /** The guest is on the instance called that, or no instance is asked for. */
  predicate Wanted(fold: Fold, instName: string, instances: seq<Instance>, g: Guest) {
    instName == "" || exists i | i in instances :: fold(i.name) == fold(instName) && g.instance == i.id
  }

  lemma PoolPicked(fold: Fold, instName: string, guests: seq<Guest>, instances: seq<Instance>) returns (at: seq<nat>)
    requires Catalogue(fold, instances)
    ensures Picks(at, guests, (g: Guest) => Wanted(fold, instName, instances, g))
    ensures instName == "" ==> At(guests, at) == guests
    ensures var named := NamedInstance(fold, instances, instName);
            instName != "" && named.Some? ==> At(guests, at) == Matching(guests, OnInstance(named.value.id))
  {
    var named := NamedInstance(fold, instances, instName);
    NamedIs(fold, instances, instName);
    if instName == "" {
      at := seq(|guests|, i => i);
      forall k | 0 <= k < |guests|
        ensures k in at
      {
        assert at[k] == k;
      }
    } else if named.Some? {
      at := MatchingPicks(guests, OnInstance(named.value.id));
      assert forall g :: OnInstance(named.value.id)(g) <==> Wanted(fold, instName, instances, g);
    } else {
      at := [];
      assert forall i | i in instances :: !NamesEqual(fold, i.name, instName);
    }
  }

  /** What becomes of a guest found, or not found, in the pool: its host stands beside it. */
  predicate WithHost(r: Result<Found, Problem>, guest: Result<Guest, Problem>, instances: seq<Instance>) {
    match guest
    case Err(e) => r == Err(e)
    case Ok(g) =>
      && (forall host | host in instances && host.id == g.instance :: r == Ok(Found(g, host)))
      && ((forall host | host in instances :: host.id != g.instance) ==> r == Err(NoHost))
  }

  lemma HostFound(fold: Fold, guest: Result<Guest, Problem>, instances: seq<Instance>)
    requires Catalogue(fold, instances)
    ensures WithHost(AtHost(guest, instances), guest, instances)
  {
    ByIDIs(fold, instances);
  }

  lemma NamesAre(fold: Fold, instances: seq<Instance>)
    requires Catalogue(fold, instances)
    ensures forall i | i in instances :: i.id in InstanceNames(instances) && InstanceNames(instances)[i.id] == i.name
  {
    ByIDIs(fold, instances);
  }

  /** Nothing else is asked for, or what is asked for is the name of an instance. */
  predicate InstanceExists(fold: Fold, instName: string, instances: seq<Instance>) {
    instName == "" || exists i | i in instances :: fold(i.name) == fold(instName)
  }

  lemma UnknownInstance(fold: Fold, identifier: string, instName: string, guests: seq<Guest>, instances: seq<Instance>)
    requires Catalogue(fold, instances)
    ensures instName != "" ==> (NamedInstance(fold, instances, instName).Some? <==> InstanceExists(fold, instName, instances))
    ensures !InstanceExists(fold, instName, instances) ==>
              ResolveGuestAndInstance(fold, identifier, instName, guests, instances) == Err(InstanceNotFound)
  {
    NamedIs(fold, instances, instName);
    assert forall i | i in instances :: NamesEqual(fold, i.name, instName) <==> fold(i.name) == fold(instName);
  }

  lemma KnownInstance(fold: Fold, identifier: string, instName: string, guests: seq<Guest>, instances: seq<Instance>,
                      pool: seq<Guest>)
    requires Catalogue(fold, instances) && InstanceExists(fold, instName, instances)
    requires instName == "" ==> pool == guests
    requires var named := NamedInstance(fold, instances, instName);
             instName != "" && named.Some? ==> pool == Matching(guests, OnInstance(named.value.id))
    ensures ResolveGuestAndInstance(fold, identifier, instName, guests, instances)
         == AtHost(ResolveGuest(fold, identifier, pool, InstanceNames(instances)), instances)
  {
    UnknownInstance(fold, identifier, instName, guests, instances);
    NamedIs(fold, instances, instName);
  }

  /** A target that names an instance is looked for there, and only there; an unknown instance is
      reported; without a name all guests are the pool. The host is the instance the guest is on. */
  lemma FoundThere(fold: Fold, identifier: string, instName: string, guests: seq<Guest>, instances: seq<Instance>)
    returns (at: seq<nat>)
    requires Catalogue(fold, instances)
    ensures Picks(at, guests, (g: Guest) => Wanted(fold, instName, instances, g))
    ensures forall i | i in instances :: i.id in InstanceNames(instances) && InstanceNames(instances)[i.id] == i.name
    ensures var r := ResolveGuestAndInstance(fold, identifier, instName, guests, instances);
            if !InstanceExists(fold, instName, instances) then r == Err(InstanceNotFound)
            else WithHost(r, ResolveGuest(fold, identifier, At(guests, at), InstanceNames(instances)), instances)
  {
    NamesAre(fold, instances);
    at := PoolPicked(fold, instName, guests, instances);
    var found := ResolveGuest(fold, identifier, At(guests, at), InstanceNames(instances));
    if InstanceExists(fold, instName, instances) {
      KnownInstance(fold, identifier, instName, guests, instances, At(guests, at));
      HostFound(fold, found, instances);
    } else {
      UnknownInstance(fold, identifier, instName, guests, instances);
    }
  }

  // ----- Hints resolve back -----

  /** A number is used once on an instance. */
  predicate NumbersIdentify(guests: seq<Guest>) {
    forall i, j | 0 <= i < j < |guests| :: guests[i].instance == guests[j].instance ==> guests[i].number != guests[j].number
  }

  lemma {:induction false} OnlyMatch(guests: seq<Guest>, p: Guest -> bool, k: nat)
    requires k < |guests| && forall i | 0 <= i < |guests| :: p(guests[i]) <==> i == k
    ensures Matching(guests, p) == [guests[k]]
  {
    var n := |guests| - 1;
    if k < n {
      OnlyMatch(guests[..n], p, k);
    } else {
      NoMatch(guests[..n], p);
    }
  }

  lemma {:induction false} NoMatch(guests: seq<Guest>, p: Guest -> bool)
    requires forall i | 0 <= i < |guests| :: !p(guests[i])
    ensures Matching(guests, p) == []
  {
    if guests != [] {
      NoMatch(guests[..|guests| - 1], p);
    }
  }

  lemma {:induction false} MatchingTwice(guests: seq<Guest>, p: Guest -> bool, q: Guest -> bool, pq: Guest -> bool)
    requires forall g :: pq(g) <==> p(g) && q(g)
    ensures Matching(Matching(guests, p), q) == Matching(guests, pq)
  {
    if guests != [] {
      var n := |guests| - 1;
      var m, x := Matching(guests[..n], p), guests[n];
      MatchingTwice(guests[..n], p, q, pq);
      assert pq(x) <==> p(x) && q(x);
      assert (m + [x])[..|m|] == m && m + [] == m;
      assert Matching(m + [x], q) == Matching(m, q) + (if q(x) then [x] else []);
    }
  }

  lemma ShortIdPlain(g: Guest)
    ensures forall i | 0 <= i < |ShortId(g)| :: Plain(ShortId(g)[i])
  {
    AtoiItoa(g.number);
    var id := ShortId(g);
    assert forall i | 2 <= i < |id| :: id[i] == Itoa(g.number)[i - 2];
  }

  lemma ShortIdAsks(g: Guest)
    ensures Atoi(ShortId(g)) == None
    ensures Asked(g.kind, ShortId(g)) == Some(g.number)
    ensures g.kind == VM ==> Asked(CT, ShortId(g)) == None
  {
    var id := ShortId(g);
    AtoiItoa(g.number);
    assert id[..2] == Prefix(g.kind) && id[2..] == Itoa(g.number);
    assert id[0] == Prefix(g.kind)[0];
    if g.kind == VM {
      assert id[0] == 'v' && Prefix(CT)[0] == 'c';
    }
  }

  /** The short id parses back, is no plain number, and folds to itself. */
  lemma ShortIdParses(fold: Fold, g: Guest)
    requires KeepsPlain(fold)
    ensures Atoi(ShortId(g)) == None && fold(ShortId(g)) == ShortId(g) && '@' !in ShortId(g)
    ensures Asked(g.kind, ShortId(g)) == Some(g.number)
    ensures g.kind == VM ==> Asked(CT, ShortId(g)) == None
  {
    ShortIdPlain(g);
    ShortIdAsks(g);
  }

  lemma {:induction false} LastAtSplits(a: string, b: string)
    requires '@' !in b
    ensures LastAt(a + "@" + b) == |a|
  {
    if b == "" {
      assert a + "@" + b == a + "@";
    } else {
      var n := |b| - 1;
      assert (a + "@" + b)[..|a| + 1 + n] == a + "@" + b[..n];
      assert b[n] in b;
      LastAtSplits(a, b[..n]);
    }
  }

  /** A target without "@" is an identifier; one with it splits at the last, when both sides have
      something and the right one is an instance's name in any case, and is an identifier otherwise. */
  lemma TargetReads(fold: Fold, a: string, b: string, instances: seq<Instance>)
    requires '@' !in b
    ensures var known := Some(InstanceLookup(fold, instances));
            && ParseGuestTarget(b, known) == Target("", b)
            && ParseGuestTarget(a + "@" + b, known)
               == if a != "" && b != "" && exists i | i in instances :: fold(i.name) == fold(b) then Target(b, a)
                  else Target("", a + "@" + b)
  {
    var s := a + "@" + b;
    LastAtSplits(a, b);
    assert s[..|a|] == a && s[|a| + 1..] == b;
    assert InstanceLookup(fold, instances)(b) <==> exists i | i in instances :: fold(i.name) == fold(b) by {
      if i :| i in instances && fold(i.name) == fold(b) {
        var k :| 0 <= k < |instances| && instances[k] == i;
        assert NamesEqual(fold, instances[k].name, b);
      }
    }
    assert LastAt(b) == -1;
  }

  /** A hint is a target that leads back: it parses into its two parts and resolves to exactly the guest
      it was printed for. */
  lemma HintsResolveBack(fold: Fold, guests: seq<Guest>, instances: seq<Instance>, k: nat, host: Instance)
    requires KeepsPlain(fold) && Catalogue(fold, instances) && NumbersIdentify(guests)
    requires k < |guests| && host in instances && guests[k].instance == host.id
    requires host.name != "" && '@' !in host.name
    ensures var hint := Qualified(guests[k], InstanceNames(instances));
            var target := ParseGuestTarget(hint, Some(InstanceLookup(fold, instances)));
            && target == Target(host.name, ShortId(guests[k]))
            && ResolveGuestAndInstance(fold, target.identifier, target.instance, guests, instances)
               == Ok(Found(guests[k], host))
  {
    var g := guests[k];
    var id := ShortId(g);
    ByIDIs(fold, instances);
    HintParses(fold, instances, g, host);
    NamedIs(fold, instances, host.name);
    assert NamedInstance(fold, instances, host.name) == Some(host);
    var pool := Matching(guests, OnInstance(host.id));
    PoolMatch(guests, k, host.id);
    ShortIdParses(fold, g);
    assert ResolveGuest(fold, id, pool, InstanceNames(instances)) == Ok(g);
  }

  lemma HintParses(fold: Fold, instances: seq<Instance>, g: Guest, host: Instance)
    requires KeepsPlain(fold) && Catalogue(fold, instances)
    requires host in instances && g.instance == host.id && host.name != "" && '@' !in host.name
    ensures ParseGuestTarget(Qualified(g, InstanceNames(instances)), Some(InstanceLookup(fold, instances)))
         == Target(host.name, ShortId(g))
  {
    ByIDIs(fold, instances);
    var i :| 0 <= i < |instances| && instances[i] == host;
    assert NamesEqual(fold, instances[i].name, host.name);
    SuffixParses(ShortId(g), host.name, InstanceLookup(fold, instances));
  }

  lemma SuffixParses(id: string, name: string, known: string -> bool)
    requires id != "" && name != "" && '@' !in name && known(name)
    ensures ParseGuestTarget(id + "@" + name, Some(known)) == Target(name, id)
  {
    var hint := id + "@" + name;
    LastAtSplits(id, name);
    assert hint[..|id|] == id && hint[|id| + 1..] == name;
  }

  lemma PoolMatch(guests: seq<Guest>, k: nat, host: int)
    requires k < |guests| && NumbersIdentify(guests) && guests[k].instance == host
    ensures Matching(Matching(guests, OnInstance(host)), ByType(guests[k].kind, guests[k].number)) == [guests[k]]
  {
    var g := guests[k];
    var both := (x: Guest) => x.instance == host && x.kind == g.kind && x.number == g.number;
    MatchingTwice(guests, OnInstance(host), ByType(g.kind, g.number), both);
    forall i | 0 <= i < |guests|
      ensures both(guests[i]) <==> i == k
    {
      if i < k {
        assert guests[i].instance == guests[k].instance ==> guests[i].number != guests[k].number;
      } else if k < i {
        assert guests[k].instance == guests[i].instance ==> guests[k].number != guests[i].number;
      }
    }
    OnlyMatch(guests, both, k);
  }

  // ----- Every hint of every ambiguity -----

  lemma {:induction false} MatchingMembers(guests: seq<Guest>, p: Guest -> bool)
    ensures forall g | g in Matching(guests, p) :: g in guests && p(g)
  {
    if guests != [] {
      MatchingMembers(guests[..|guests| - 1], p);
    }
  }

  /** The matches of the first rule that matches anything. */
  function FirstMatches(rules: seq<Rule>, guests: seq<Guest>): seq<Guest> {
    if rules == [] then []
    else
      var matches := Matching(guests, rules[0].matches);
      if matches != [] then matches else FirstMatches(rules[1..], guests)
  }

  lemma {:induction false} HintsAreMatches(rules: seq<Rule>, guests: seq<Guest>, names: map<int, string>)
    ensures var a := Answer(rules, guests, names);
            a.Err? && a.error.Ambiguous? ==> a.error.hints == Hints(FirstMatches(rules, guests), names)
    ensures forall g | g in FirstMatches(rules, guests) :: g in guests
    decreases |rules|
  {
    if rules != [] {
      MatchingMembers(guests, rules[0].matches);
      HintsAreMatches(rules[1..], guests, names);
    }
  }

  /** The guests a target is looked for among: those of the instance it names. */
  function Pool(fold: Fold, instName: string, guests: seq<Guest>, instances: seq<Instance>): seq<Guest> {
    var wanted := if instName == "" then None else NamedInstance(fold, instances, instName);
    if wanted.Some? then Matching(guests, OnInstance(wanted.value.id)) else guests
  }

  lemma PoolMembers(fold: Fold, instName: string, guests: seq<Guest>, instances: seq<Instance>)
    ensures forall g | g in Pool(fold, instName, guests, instances) :: g in guests
  {
    var wanted := NamedInstance(fold, instances, instName);
    if wanted.Some? {
      MatchingMembers(guests, OnInstance(wanted.value.id));
    }
  }

  /** The guest's instance is there, under a name that can be a suffix. */
  predicate Hosted(g: Guest, instances: seq<Instance>) {
    exists i | 0 <= i < |instances| ::
      instances[i].id == g.instance && instances[i].name != "" && '@' !in instances[i].name
  }

  predicate LeadsBack(fold: Fold, h: string, g: Guest, guests: seq<Guest>, instances: seq<Instance>) {
    var target := ParseGuestTarget(h, Some(InstanceLookup(fold, instances)));
    var r := ResolveGuestAndInstance(fold, target.identifier, target.instance, guests, instances);
    r.Ok? && r.value.guest == g
  }

  /** An ambiguity is one of the pool. */
  lemma AmbiguousInPool(fold: Fold, identifier: string, instName: string, guests: seq<Guest>, instances: seq<Instance>)
    requires Catalogue(fold, instances)
    ensures var r := ResolveGuestAndInstance(fold, identifier, instName, guests, instances);
            r.Err? && r.error.Ambiguous? ==>
              ResolveGuest(fold, identifier, Pool(fold, instName, guests, instances), InstanceNames(instances)) == Err(r.error)
  {
    NamedIs(fold, instances, instName);
  }

  /** Whatever was ambiguous: there is a hint for each match of the rule that decided, and the k-th hint
      leads to the k-th of them. */
  lemma EveryHintLeadsBack(fold: Fold, identifier: string, instName: string, guests: seq<Guest>,
                           instances: seq<Instance>, k: nat)
    requires KeepsPlain(fold) && Catalogue(fold, instances) && NumbersIdentify(guests)
    requires forall g | g in guests :: Hosted(g, instances)
    requires var r := ResolveGuestAndInstance(fold, identifier, instName, guests, instances);
             r.Err? && r.error.Ambiguous? && k < |r.error.hints|
    ensures var hints := ResolveGuestAndInstance(fold, identifier, instName, guests, instances).error.hints;
            var meant := FirstMatches(Rules(fold, identifier), Pool(fold, instName, guests, instances));
            |hints| == |meant| && LeadsBack(fold, hints[k], meant[k], guests, instances)
  {
    var names := InstanceNames(instances);
    var pool := Pool(fold, instName, guests, instances);
    PoolMembers(fold, instName, guests, instances);
    AmbiguousInPool(fold, identifier, instName, guests, instances);
    ResolvesByRules(fold, identifier, pool, names);
    HintsAreMatches(Rules(fold, identifier), pool, names);
    HintLeadsBack(fold, FirstMatches(Rules(fold, identifier), pool)[k], guests, instances);
  }

  lemma HintLeadsBack(fold: Fold, g: Guest, guests: seq<Guest>, instances: seq<Instance>)
    requires KeepsPlain(fold) && Catalogue(fold, instances) && NumbersIdentify(guests)
    requires g in guests && Hosted(g, instances)
    ensures LeadsBack(fold, Qualified(g, InstanceNames(instances)), g, guests, instances)
  {
    var k :| 0 <= k < |guests| && guests[k] == g;
    var i :| 0 <= i < |instances| && instances[i].id == g.instance
             && instances[i].name != "" && '@' !in instances[i].name;
    HintsResolveBack(fold, guests, instances, k, instances[i]);
  }
}
