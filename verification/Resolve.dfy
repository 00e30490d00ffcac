/** From what a user types to one guest (internal/cli/resolve.go). Names are compared by a folding that
    is a parameter; all it must do is leave lower-case ASCII alone. */
module Resolve {
  import opened Wrappers
  import opened Numerals

  const MIN_INT := -0x8000_0000_0000_0000
  const MAX_INT := 0x7FFF_FFFF_FFFF_FFFF

  type GoInt = n: int | MIN_INT <= n <= MAX_INT

  datatype GuestType = CT | VM

  datatype Guest = Guest(id: int, kind: GuestType, number: GoInt, name: string, instance: int)

  datatype Instance = Instance(id: int, name: string)

  datatype Problem =
    | InstanceNotFound
    | Ambiguous(shown: string, hints: seq<string>)
    | GuestNotFound
    | NoHost

  datatype Found = Found(guest: Guest, instance: Instance)

  type Fold = string -> string

  predicate Plain(c: char) {
    'a' <= c <= 'z' || '0' <= c <= '9' || c == '-'
  }

  ghost predicate KeepsPlain(fold: Fold) {
    forall s: string :: (forall i | 0 <= i < |s| :: Plain(s[i])) ==> fold(s) == s
  }

  // ----- Numbers -----

  predicate Digits(s: string) {
    s != "" && forall i | 0 <= i < |s| :: IsDigit(s[i])
  }

  /** strconv.Atoi: an optional sign, digits, and the value in range. */
  function Atoi(s: string): Option<GoInt> {
    var negative := s != "" && s[0] == '-';
    var digits := if s != "" && (s[0] == '+' || s[0] == '-') then s[1..] else s;
    if !Digits(digits) then None
    else
      var v := if negative then 0 - Value(digits) else Value(digits);
      if MIN_INT <= v <= MAX_INT then Some(v) else None
  }

  function Itoa(n: GoInt): string {
    if n < 0 then "-" + Decimal(0 - n) else Decimal(n)
  }

  lemma AtoiItoa(n: GoInt)
    ensures Atoi(Itoa(n)) == Some(n)
    ensures forall i | 0 <= i < |Itoa(n)| :: Plain(Itoa(n)[i])
  {
    var m: nat := if n < 0 then 0 - n else n as int;
    ValueOfDecimal(m);
    assert Digits(Decimal(m));
    if n < 0 {
      assert Itoa(n)[0] == '-' && Itoa(n)[1..] == Decimal(m);
    } else {
      assert IsDigit(Itoa(n)[0]);
    }
  }

  // ----- Targets -----

  /** The place of the last "@", or -1. */
  function LastAt(s: string): (i: int)
    ensures -1 <= i < |s|
    ensures i >= 0 ==> s[i] == '@'
    ensures forall k | i < k < |s| :: s[k] != '@'
  {
    if s == "" then -1 else if s[|s| - 1] == '@' then |s| - 1 else LastAt(s[..|s| - 1])
  }

  datatype Target = Target(instance: string, identifier: string)

  /** Splits at the last "@" when what follows it names an instance. */
  function ParseGuestTarget(s: string, known: Option<string -> bool>): Target {
    if known.None? then Target("", s)
    else
      var i := LastAt(s);
      if i <= 0 || i == |s| - 1 || !known.value(s[i + 1..]) then Target("", s)
      else Target(s[i + 1..], s[..i])
  }

  predicate NamesEqual(fold: Fold, a: string, b: string) {
    fold(a) == fold(b)
  }

  function InstanceLookup(fold: Fold, instances: seq<Instance>): string -> bool {
    name => exists i | 0 <= i < |instances| :: NamesEqual(fold, instances[i].name, name)
  }

  // ----- Guests -----

  function Prefix(k: GuestType): string {
    match k case CT => "ct" case VM => "vm"
  }

  function ShortId(g: Guest): string {
    Prefix(g.kind) + Itoa(g.number)
  }

  function Qualified(g: Guest, names: map<int, string>): string {
    if g.instance in names && names[g.instance] != "" then ShortId(g) + "@" + names[g.instance] else ShortId(g)
  }

  function Matching(guests: seq<Guest>, p: Guest -> bool): seq<Guest> {
    if guests == [] then []
    else
      var n := |guests| - 1;
      Matching(guests[..n], p) + (if p(guests[n]) then [guests[n]] else [])
  }

  function Hints(guests: seq<Guest>, names: map<int, string>): seq<string> {
    seq(|guests|, i requires 0 <= i < |guests| => Qualified(guests[i], names))
  }

  /** One match is the answer, several are ambiguous, none leaves it to the next rule. */
  function Decide(matches: seq<Guest>, shown: string, names: map<int, string>, otherwise: Result<Guest, Problem>)
    : Result<Guest, Problem>
  {
    if |matches| == 1 then Ok(matches[0])
    else if |matches| > 1 then Err(Ambiguous(shown, Hints(matches, names)))
    else otherwise
  }

  /** The number a type-and-number identifier asks for. */
  function Asked(k: GuestType, lower: string): Option<GoInt> {
    if Prefix(k) <= lower then Atoi(lower[2..]) else None
  }

  function ByNumber(vmid: GoInt): Guest -> bool {
    (g: Guest) => g.number == vmid
  }

  function ByType(k: GuestType, vmid: GoInt): Guest -> bool {
    (g: Guest) => g.kind == k && g.number == vmid
  }

  function ByName(fold: Fold, identifier: string): Guest -> bool {
    (g: Guest) => NamesEqual(fold, g.name, identifier)
  }

  /** Number first, then type and number, then name. */
  function ResolveGuest(fold: Fold, identifier: string, guests: seq<Guest>, names: map<int, string>)
    : Result<Guest, Problem>
  {
    var lower := fold(identifier);
    var byName := Decide(Matching(guests, ByName(fold, identifier)), identifier, names, Err(GuestNotFound));
    var byVM := TypeRule(VM, lower, guests, names, byName);
    var byCT := TypeRule(CT, lower, guests, names, byVM);
    match Atoi(identifier)
    case None => byCT
    case Some(vmid) => Decide(Matching(guests, ByNumber(vmid)), identifier, names, byCT)
  }

  function TypeRule(k: GuestType, lower: string, guests: seq<Guest>, names: map<int, string>,
                    otherwise: Result<Guest, Problem>): Result<Guest, Problem>
  {
    match Asked(k, lower)
    case None => otherwise
    case Some(vmid) => Decide(Matching(guests, ByType(k, vmid)), Prefix(k) + Itoa(vmid), names, otherwise)
  }

  // ----- Instances -----

  /** The last instance of that name, if any. */
  function NamedInstance(fold: Fold, instances: seq<Instance>, name: string): Option<Instance> {
    if instances == [] then None
    else
      var last := instances[|instances| - 1];
      if NamesEqual(fold, last.name, name) then Some(last) else NamedInstance(fold, instances[..|instances| - 1], name)
  }

  function InstancesByID(instances: seq<Instance>): map<int, Instance> {
    if instances == [] then map[]
    else
      var last := instances[|instances| - 1];
      InstancesByID(instances[..|instances| - 1])[last.id := last]
  }

  function InstanceNames(instances: seq<Instance>): map<int, string> {
    var byID := InstancesByID(instances);
    map id | id in byID :: byID[id].name
  }

  function OnInstance(id: int): Guest -> bool {
    (g: Guest) => g.instance == id
  }

  function ResolveGuestAndInstance(fold: Fold, identifier: string, instName: string,
                                   guests: seq<Guest>, instances: seq<Instance>): Result<Found, Problem>
  {
    var wanted := if instName == "" then None else NamedInstance(fold, instances, instName);
    if instName != "" && wanted.None? then Err(InstanceNotFound)
    else
      var pool := if wanted.Some? && wanted.value.id >= 0 then Matching(guests, OnInstance(wanted.value.id)) else guests;
      AtHost(ResolveGuest(fold, identifier, pool, InstanceNames(instances)), instances)
  }

  /** A guest found with the instance it is on. */
  function AtHost(guest: Result<Guest, Problem>, instances: seq<Instance>): Result<Found, Problem> {
    var byID := InstancesByID(instances);
    match guest
    case Err(e) => Err(e)
    case Ok(g) => if g.instance in byID then Ok(Found(g, byID[g.instance])) else Err(NoHost)
  }

  // ----- The searches as the program has them -----

  method Collect(guests: seq<Guest>, p: Guest -> bool) returns (matches: seq<Guest>)
    ensures matches == Matching(guests, p)
  {
    matches := [];
    for i := 0 to |guests|
      invariant matches == Matching(guests[..i], p)
    {
      assert guests[..i + 1][..i] == guests[..i];
      if p(guests[i]) {
        matches := matches + [guests[i]];
      }
    }
    assert guests[..|guests|] == guests;
  }

  method FindGuest(fold: Fold, identifier: string, guests: seq<Guest>, names: map<int, string>)
    returns (r: Result<Guest, Problem>)
    ensures r == ResolveGuest(fold, identifier, guests, names)
  {
    var lower := fold(identifier);
    var vmid := Atoi(identifier);
    if vmid.Some? {
      var matches := Collect(guests, ByNumber(vmid.value));
      if |matches| == 1 {
        return Ok(matches[0]);
      }
      if |matches| > 1 {
        return Err(Ambiguous(identifier, Hints(matches, names)));
      }
    }
    ghost var byName := Decide(Matching(guests, ByName(fold, identifier)), identifier, names, Err(GuestNotFound));
    ghost var byType := ResolveGuest(fold, identifier, guests, names);
    var kinds := [CT, VM];
    for i := 0 to |kinds|
      invariant byType == if i == 0 then TypeRule(CT, lower, guests, names, TypeRule(VM, lower, guests, names, byName))
                          else if i == 1 then TypeRule(VM, lower, guests, names, byName)
                          else byName
    {
      var asked := Asked(kinds[i], lower);
      if asked.Some? {
        var matches := Collect(guests, ByType(kinds[i], asked.value));
        if |matches| == 1 {
          return Ok(matches[0]);
        }
        if |matches| > 1 {
          return Err(Ambiguous(Prefix(kinds[i]) + Itoa(asked.value), Hints(matches, names)));
        }
      }
    }
    var matches := Collect(guests, ByName(fold, identifier));
    if |matches| == 1 {
      return Ok(matches[0]);
    }
    if |matches| > 1 {
      return Err(Ambiguous(identifier, Hints(matches, names)));
    }
    return Err(GuestNotFound);
  }

  method FindGuestAndInstance(fold: Fold, identifier: string, instName: string,
                              guests: seq<Guest>, instances: seq<Instance>) returns (r: Result<Found, Problem>)
    ensures r == ResolveGuestAndInstance(fold, identifier, instName, guests, instances)
  {
    var byID: map<int, Instance> := map[];
    var filter, found := -1, false;
    for i := 0 to |instances|
      invariant byID == InstancesByID(instances[..i])
      invariant found <==> instName != "" && NamedInstance(fold, instances[..i], instName).Some?
      invariant filter == if found then NamedInstance(fold, instances[..i], instName).value.id else -1
    {
      assert instances[..i + 1][..i] == instances[..i];
      byID := byID[instances[i].id := instances[i]];
      if instName != "" && NamesEqual(fold, instances[i].name, instName) {
        filter, found := instances[i].id, true;
      }
    }
    assert instances[..|instances|] == instances;
    if instName != "" && !found {
      return Err(InstanceNotFound);
    }
    var pool := guests;
    if filter >= 0 {
      pool := Collect(guests, OnInstance(filter));
    }
    var names := map id | id in byID :: byID[id].name;
    var guest :- FindGuest(fold, identifier, pool, names);
    if guest.instance !in byID {
      return Err(NoHost);
    }
    return Ok(Found(guest, byID[guest.instance]));
  }
}
