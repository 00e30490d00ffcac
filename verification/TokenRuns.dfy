/** Runs of the store: sweeping cannot be seen, and no login is worth more than its token. */
module TokenRuns {
  import opened Wrappers
  import opened TokenStore

  datatype History = History(tables: Tables, answers: seq<Answer>)

  function Run(sweep: bool, s: Tables, ops: seq<Op>): (r: History)
    ensures |r.answers| == |ops|
    decreases |ops|
  {
    if ops == [] then History(s, [])
    else
      var first := Perform(sweep, s, ops[0]);
      var rest := Run(sweep, first.tables, ops[1..]);
      History(rest.tables, [first.answer] + rest.answers)
  }

  // ----- Sweeping is unobservable -----

  /** The times an operation reads the clock at: first and last. */
  function Begins(op: Op, clock: int): int {
    match op
    case Mint(_, _, now, _) => now
    case Redeem(_, now) => now
    case Create(_, _, now, _) => now
    case Lookup(_, now) => now
    case Revoke(_) => clock
    case Exchange(_, redeemedAt, _, _) => redeemedAt
  }

  function Ends(op: Op, clock: int): int {
    if op.Exchange? then op.createdAt else Begins(op, clock)
  }

  predicate ClockRuns(clock: int, ops: seq<Op>)
    decreases |ops|
  {
    ops != [] ==>
      clock <= Begins(ops[0], clock) <= Ends(ops[0], clock) && ClockRuns(Ends(ops[0], clock), ops[1..])
  }

  predicate Expired(t: Table, hash: Hash, now: int) {
    hash in t && t[hash].expires <= now
  }

  /** The operation inserts a hash whose expired row a store that never sweeps still holds. */
  predicate Reuses(s: Tables, op: Op) {
    match op
    case Mint(hash, _, now, _) => Expired(s.tokens, hash, now)
    case Create(hash, _, now, _) => Expired(s.sessions, hash, now)
    case Exchange(minted, redeemedAt, credential, createdAt) =>
      Found(s.tokens, minted, redeemedAt).Known? && credential.Some? && Expired(s.sessions, credential.value, createdAt)
    case Redeem(_, _) => false
    case Lookup(_, _) => false
    case Revoke(_) => false
  }

  predicate NeverReuses(s: Tables, ops: seq<Op>)
    decreases |ops|
  {
    ops != [] ==> !Reuses(s, ops[0]) && NeverReuses(Perform(false, s, ops[0]).tables, ops[1..])
  }

  /** The swept table is the full one less some rows that have expired. */
  predicate SweptFrom(clock: int, swept: Table, full: Table) {
    && (forall h | h in swept :: h in full && full[h] == swept[h])
    && (forall h | h in full && h !in swept :: full[h].expires <= clock)
  }

  predicate Related(clock: int, s: Tables, t: Tables) {
    SweptFrom(clock, s.tokens, t.tokens) && SweptFrom(clock, s.sessions, t.sessions)
  }

  lemma InsertedRelated(clock: int, swept: Table, full: Table, hash: Hash, e: Entry, now: int)
    requires SweptFrom(clock, swept, full) && clock <= now
    ensures var a, b := Inserted(true, swept, hash, e, now), Inserted(false, full, hash, e, now);
            && (a.answer == b.answer <==> !Expired(full, hash, now))
            && (a.answer == b.answer ==> SweptFrom(now, a.table, b.table))
  {
  }

  lemma FoundRelated(clock: int, swept: Table, full: Table, hash: Hash, now: int)
    requires SweptFrom(clock, swept, full) && clock <= now
    ensures Found(swept, hash, now) == Found(full, hash, now)
    ensures SweptFrom(now, Redeemed(swept, hash, now).table, Redeemed(full, hash, now).table)
  {
  }

  lemma StepRelated(clock: int, s: Tables, t: Tables, op: Op)
    requires Related(clock, s, t) && clock <= Begins(op, clock) <= Ends(op, clock)
    ensures var a, b := Perform(true, s, op), Perform(false, t, op);
            && (a.answer == b.answer <==> !Reuses(t, op))
            && (!Reuses(t, op) ==> Related(Ends(op, clock), a.tables, b.tables))
  {
    match op {
      case Mint(hash, who, now, expires) =>
        InsertedRelated(clock, s.tokens, t.tokens, hash, Entry(who, expires), now);
      case Redeem(hash, now) =>
        FoundRelated(clock, s.tokens, t.tokens, hash, now);
      case Create(hash, who, now, expires) =>
        InsertedRelated(clock, s.sessions, t.sessions, hash, Entry(who, expires), now);
      case Lookup(hash, now) =>
        FoundRelated(clock, s.sessions, t.sessions, hash, now);
      case Revoke(_) =>
      case Exchange(minted, redeemedAt, credential, createdAt) =>
        FoundRelated(clock, s.tokens, t.tokens, minted, redeemedAt);
        var found := Found(t.tokens, minted, redeemedAt);
        if found.Known? && credential.Some? {
          InsertedRelated(clock, s.sessions, t.sessions, credential.value,
            Entry(found.who, createdAt + SESSION_CREDENTIAL_TTL), createdAt);
        }
    }
  }

  lemma {:induction false} RunsAgree(clock: int, s: Tables, t: Tables, ops: seq<Op>)
    requires Related(clock, s, t) && ClockRuns(clock, ops)
    ensures Run(true, s, ops).answers == Run(false, t, ops).answers <==> NeverReuses(t, ops)
    decreases |ops|
  {
    if ops != [] {
      StepRelated(clock, s, t, ops[0]);
      var a, b := Perform(true, s, ops[0]), Perform(false, t, ops[0]);
      var as', bs := Run(true, a.tables, ops[1..]).answers, Run(false, b.tables, ops[1..]).answers;
      assert ([a.answer] + as')[0] == a.answer && ([b.answer] + bs)[0] == b.answer;
      assert ([a.answer] + as')[1..] == as' && ([b.answer] + bs)[1..] == bs;
      if !Reuses(t, ops[0]) {
        RunsAgree(Ends(ops[0], clock), a.tables, b.tables, ops[1..]);
      }
    }
  }

  /** While the clock does not run backwards, a store that sweeps on every insert answers exactly like
      one that never sweeps, just so long as no insert reuses the hash of an expired row. */
  lemma SweepingIsUnobservable(s: Tables, clock: int, ops: seq<Op>)
    requires ClockRuns(clock, ops)
    ensures Run(true, s, ops).answers == Run(false, s, ops).answers <==> NeverReuses(s, ops)
  {
    RunsAgree(clock, s, s, ops);
  }

  // ----- Any clock at all -----

  /** The row is still there in the store that never sweeps, and the other has swept it. */
  predicate SweptAway(swept: Table, full: Table, hash: Hash) {
    hash in full && hash !in swept
  }

  /** A swept row is asked for at a time before it expires. */
  predicate AskedBefore(swept: Table, full: Table, hash: Hash, now: int) {
    SweptAway(swept, full, hash) && full[hash].expires > now
  }

  /** The hash of a row is used again that has been swept, or is swept now. */
  predicate UsedAgain(swept: Table, full: Table, hash: Hash, now: int) {
    SweptAway(swept, full, hash) || Expired(full, hash, now)
  }

  /** The operation tells the store that sweeps from the one that does not. */
  predicate Tells(s: Tables, t: Tables, op: Op) {
    match op
    case Mint(hash, _, now, _) => UsedAgain(s.tokens, t.tokens, hash, now)
    case Create(hash, _, now, _) => UsedAgain(s.sessions, t.sessions, hash, now)
    case Redeem(hash, now) => AskedBefore(s.tokens, t.tokens, hash, now)
    case Lookup(hash, now) => AskedBefore(s.sessions, t.sessions, hash, now)
    case Revoke(_) => false
    case Exchange(minted, redeemedAt, credential, createdAt) =>
      || AskedBefore(s.tokens, t.tokens, minted, redeemedAt)
      || (Found(t.tokens, minted, redeemedAt).Known? && credential.Some?
          && UsedAgain(s.sessions, t.sessions, credential.value, createdAt))
  }

  predicate NeverTells(s: Tables, t: Tables, ops: seq<Op>)
    decreases |ops|
  {
    ops != [] ==>
      !Tells(s, t, ops[0]) && NeverTells(Perform(true, s, ops[0]).tables, Perform(false, t, ops[0]).tables, ops[1..])
  }

  /** The swept table is part of the full one. */
  predicate PartOf(swept: Table, full: Table) {
    forall h | h in swept :: h in full && full[h] == swept[h]
  }

  predicate Parts(s: Tables, t: Tables) {
    PartOf(s.tokens, t.tokens) && PartOf(s.sessions, t.sessions)
  }

  lemma InsertedParts(swept: Table, full: Table, hash: Hash, e: Entry, now: int)
    requires PartOf(swept, full)
    ensures var a, b := Inserted(true, swept, hash, e, now), Inserted(false, full, hash, e, now);
            && (a.answer == b.answer <==> !UsedAgain(swept, full, hash, now))
            && (a.answer == b.answer ==> PartOf(a.table, b.table))
  {
  }

  lemma FoundParts(swept: Table, full: Table, hash: Hash, now: int)
    requires PartOf(swept, full)
    ensures Found(swept, hash, now) == Found(full, hash, now) <==> !AskedBefore(swept, full, hash, now)
    ensures Found(swept, hash, now) == Found(full, hash, now) ==>
              PartOf(Redeemed(swept, hash, now).table, Redeemed(full, hash, now).table)
  {
  }

  lemma StepParts(s: Tables, t: Tables, op: Op)
    requires Parts(s, t)
    ensures var a, b := Perform(true, s, op), Perform(false, t, op);
            && (a.answer == b.answer <==> !Tells(s, t, op))
            && (a.answer == b.answer ==> Parts(a.tables, b.tables))
  {
    match op {
      case Mint(hash, who, now, expires) => InsertedParts(s.tokens, t.tokens, hash, Entry(who, expires), now);
      case Redeem(hash, now) => FoundParts(s.tokens, t.tokens, hash, now);
      case Create(hash, who, now, expires) => InsertedParts(s.sessions, t.sessions, hash, Entry(who, expires), now);
      case Lookup(hash, now) => FoundParts(s.sessions, t.sessions, hash, now);
      case Revoke(_) =>
      case Exchange(minted, redeemedAt, credential, createdAt) =>
        FoundParts(s.tokens, t.tokens, minted, redeemedAt);
        var found := Found(t.tokens, minted, redeemedAt);
        if found.Known? && credential.Some? {
          InsertedParts(s.sessions, t.sessions, credential.value,
            Entry(found.who, createdAt + SESSION_CREDENTIAL_TTL), createdAt);
        }
    }
  }

  lemma {:induction false} RunsTell(s: Tables, t: Tables, ops: seq<Op>)
    requires Parts(s, t)
    ensures Run(true, s, ops).answers == Run(false, t, ops).answers <==> NeverTells(s, t, ops)
    decreases |ops|
  {
    if ops != [] {
      StepParts(s, t, ops[0]);
      var a, b := Perform(true, s, ops[0]), Perform(false, t, ops[0]);
      var as', bs := Run(true, a.tables, ops[1..]).answers, Run(false, b.tables, ops[1..]).answers;
      assert ([a.answer] + as')[0] == a.answer && ([b.answer] + bs)[0] == b.answer;
      assert ([a.answer] + as')[1..] == as' && ([b.answer] + bs)[1..] == bs;
      if !Tells(s, t, ops[0]) {
        RunsTell(a.tables, b.tables, ops[1..]);
      }
    }
  }

  /** Whatever the clock does: a store that sweeps answers like one that never sweeps exactly when no
      operation asks for a swept row at a time before it expires, and none uses the hash of a row
      again that has been swept or is swept now. */
  lemma SweepingShowsExactly(s: Tables, ops: seq<Op>)
    ensures Run(true, s, ops).answers == Run(false, s, ops).answers <==> NeverTells(s, s, ops)
  {
    RunsTell(s, s, ops);
  }

  /** With a clock that steps back, sweeping shows: the swept token is gone, though it is valid again. */
  lemma SweepingSeenByBackwardClock(who: Identity)
    ensures var ops := [Mint("a", who, 0, 10), Mint("b", who, 20, 30), Redeem("a", 5)];
            && Run(true, Tables(map[], map[]), ops).answers == [Done, Done, NoSuchToken]
            && Run(false, Tables(map[], map[]), ops).answers == [Done, Done, Known(who)]
  {
    var ops := [Mint("a", who, 0, 10), Mint("b", who, 20, 30), Redeem("a", 5)];
    assert ops[1..] == [ops[1], ops[2]] && ops[1..][1..] == [ops[2]];
    var one := Tables(map["a" := Entry(who, 10)], map[]);
    assert Perform(true, Tables(map[], map[]), ops[0]) == Perform(false, Tables(map[], map[]), ops[0])
        == Performed(one, Done);
    assert "b" != "a";
    assert Perform(true, one, ops[1]).answer == Perform(false, one, ops[1]).answer == Done;
    RunOfThree(true, Tables(map[], map[]), ops);
    RunOfThree(false, Tables(map[], map[]), ops);
  }

  lemma RunOfThree(sweep: bool, s: Tables, ops: seq<Op>)
    requires |ops| == 3
    ensures var one := Perform(sweep, s, ops[0]);
            var two := Perform(sweep, one.tables, ops[1]);
            var three := Perform(sweep, two.tables, ops[2]);
            Run(sweep, s, ops).answers == [one.answer, two.answer, three.answer]
  {
    var one := Perform(sweep, s, ops[0]);
    var two := Perform(sweep, one.tables, ops[1]);
    var three := Perform(sweep, two.tables, ops[2]);
    assert Run(sweep, three.tables, ops[1..][1..][1..]).answers == [];
    assert Run(sweep, two.tables, ops[1..][1..]).answers == [three.answer];
    assert Run(sweep, one.tables, ops[1..]).answers == [two.answer, three.answer];
  }

  // ----- Tokens are spent once -----

  /** The operation consumed the token, whether or not a session came of it. */
  predicate Spends(op: Op, a: Answer, hash: Hash) {
    || (op.Redeem? && op.hash == hash && a.Known?)
    || (op.Exchange? && op.minted == hash && a != NoSuchToken)
  }

  predicate Mints(op: Op, a: Answer, hash: Hash) {
    op.Mint? && op.hash == hash && a == Done
  }

  function Count(counted: (Op, Answer) -> bool, ops: seq<Op>, answers: seq<Answer>): nat
    requires |ops| == |answers|
  {
    if ops == [] then 0
    else (if counted(ops[0], answers[0]) then 1 else 0) + Count(counted, ops[1..], answers[1..])
  }

  function SpendsOf(hash: Hash): (Op, Answer) -> bool {
    (op, a) => Spends(op, a, hash)
  }

  function MintsOf(hash: Hash): (Op, Answer) -> bool {
    (op, a) => Mints(op, a, hash)
  }

  const ANY_MINT: (Op, Answer) -> bool := (op: Op, a: Answer) => op.Mint? && a == Done

  const ANY_LOGIN: (Op, Answer) -> bool := (op: Op, a: Answer) => op.Exchange? && a.Known?

  function Holds(t: Table, hash: Hash): nat {
    if hash in t then 1 else 0
  }

  lemma FirstCounts(sweep: bool, s: Tables, ops: seq<Op>, counted: (Op, Answer) -> bool)
    requires ops != []
    ensures var first := Perform(sweep, s, ops[0]);
            var rest := Run(sweep, first.tables, ops[1..]);
            var run := Run(sweep, s, ops);
            && run.tables == rest.tables
            && Count(counted, ops, run.answers)
               == (if counted(ops[0], first.answer) then 1 else 0) + Count(counted, ops[1..], rest.answers)
  {
    assert Run(sweep, s, ops).answers[1..] == Run(sweep, Perform(sweep, s, ops[0]).tables, ops[1..]).answers;
  }

  lemma StepSpends(sweep: bool, s: Tables, op: Op, hash: Hash)
    ensures var p := Perform(sweep, s, op);
            (if Spends(op, p.answer, hash) then 1 else 0) + Holds(p.tables.tokens, hash)
              <= (if Mints(op, p.answer, hash) then 1 else 0) + Holds(s.tokens, hash)
  {
  }

  /** Over every run, from any tables and with any clock: a token is spent at most as often as it was
      minted, one still held counting as unspent. */
  lemma {:induction false} SpentAtMostOnce(sweep: bool, s: Tables, ops: seq<Op>, hash: Hash)
    ensures var run := Run(sweep, s, ops);
            Count(SpendsOf(hash), ops, run.answers) + Holds(run.tables.tokens, hash)
              <= Count(MintsOf(hash), ops, run.answers) + Holds(s.tokens, hash)
    decreases |ops|
  {
    if ops != [] {
      StepSpends(sweep, s, ops[0], hash);
      FirstCounts(sweep, s, ops, SpendsOf(hash));
      FirstCounts(sweep, s, ops, MintsOf(hash));
      SpentAtMostOnce(sweep, Perform(sweep, s, ops[0]).tables, ops[1..], hash);
    }
  }

  lemma FewerKeys(a: Table, b: Table)
    requires a.Keys <= b.Keys
    ensures |a| <= |b|
  {
    var extra := b.Keys - a.Keys;
    assert b.Keys == a.Keys + extra && |b.Keys| == |a.Keys| + |extra|;
  }

  lemma InsertCounts(sweep: bool, t: Table, hash: Hash, e: Entry, now: int)
    ensures var c := Inserted(sweep, t, hash, e, now);
            |c.table| <= |t| + (if c.answer == Done then 1 else 0)
  {
    FewerKeys(if sweep then Swept(t, now) else t, t);
  }

  lemma RedeemCounts(t: Table, hash: Hash, now: int)
    ensures var c := Redeemed(t, hash, now);
            |c.table| + (if c.answer.Known? then 1 else 0) == |t|
  {
    if hash in t {
      assert (t - {hash}).Keys == t.Keys - {hash};
      assert |(t - {hash}).Keys| == |t.Keys| - 1;
    }
  }

  lemma StepLogins(sweep: bool, s: Tables, op: Op)
    ensures var p := Perform(sweep, s, op);
            (if ANY_LOGIN(op, p.answer) then 1 else 0) + |p.tables.tokens|
              <= (if ANY_MINT(op, p.answer) then 1 else 0) + |s.tokens|
  {
    match op {
      case Mint(hash, who, now, expires) => InsertCounts(sweep, s.tokens, hash, Entry(who, expires), now);
      case Redeem(hash, now) => RedeemCounts(s.tokens, hash, now);
      case Create(_, _, _, _) =>
      case Lookup(_, _) =>
      case Revoke(_) =>
      case Exchange(minted, redeemedAt, _, _) => RedeemCounts(s.tokens, minted, redeemedAt);
    }
  }

  /** Sessions created by exchanges, and tokens still held, never outnumber the tokens minted. */
  lemma {:induction false} LoginsNeverOutnumberMints(sweep: bool, s: Tables, ops: seq<Op>)
    ensures var run := Run(sweep, s, ops);
            Count(ANY_LOGIN, ops, run.answers) + |run.tables.tokens|
              <= Count(ANY_MINT, ops, run.answers) + |s.tokens|
    decreases |ops|
  {
    if ops != [] {
      StepLogins(sweep, s, ops[0]);
      FirstCounts(sweep, s, ops, ANY_LOGIN);
      FirstCounts(sweep, s, ops, ANY_MINT);
      LoginsNeverOutnumberMints(sweep, Perform(sweep, s, ops[0]).tables, ops[1..]);
    }
  }

  // ----- Whose token, whose session -----

  /** The token answered for at step `k` was minted at step `i`, for this identity and to expire after
      `now`, and not spent in between. */
  predicate MintedAt(ops: seq<Op>, answers: seq<Answer>, i: nat, k: nat, hash: Hash, who: Identity, now: int)
    requires i < k < |ops| == |answers|
  {
    && Mints(ops[i], answers[i], hash) && ops[i].who == who && ops[i].expires > now
    && forall j | i < j < k :: !Spends(ops[j], answers[j], hash)
  }

  predicate HeldFrom(s: Tables, ops: seq<Op>, answers: seq<Answer>, k: nat, hash: Hash, who: Identity, now: int)
    requires k < |ops| == |answers|
  {
    && hash in s.tokens && s.tokens[hash].who == who && s.tokens[hash].expires > now
    && forall j | 0 <= j < k :: !Spends(ops[j], answers[j], hash)
  }

  lemma {:induction false} TokenTraced(sweep: bool, s: Tables, ops: seq<Op>, k: nat, hash: Hash, who: Identity, now: int)
    requires k < |ops|
    requires Found(Run(sweep, s, ops[..k]).tables.tokens, hash, now) == Known(who)
    ensures var answers := Run(sweep, s, ops).answers;
            || HeldFrom(s, ops, answers, k, hash, who, now)
            || exists i | 0 <= i < k :: MintedAt(ops, answers, i, k, hash, who, now)
    decreases k
  {
    if k > 0 {
      var first := Perform(sweep, s, ops[0]);
      var run, rest := Run(sweep, s, ops).answers, Run(sweep, first.tables, ops[1..]).answers;
      assert run == [first.answer] + rest;
      assert ops[..k][1..] == ops[1..][..k - 1];
      TokenTraced(sweep, first.tables, ops[1..], k - 1, hash, who, now);
      HeldStep(sweep, s, ops[0], hash, who, now);
      var tail, n := ops[1..], k - 1;
      if HeldFrom(first.tables, tail, rest, n, hash, who, now) {
        if Mints(ops[0], first.answer, hash) {
          assert MintedAt(ops, run, 0, k, hash, who, now);
        }
      } else {
        var i :| 0 <= i < n && MintedAt(tail, rest, i, n, hash, who, now);
        MintedLater(ops, run, i, k, hash, who, now);
      }
    }
  }

  lemma MintedLater(ops: seq<Op>, answers: seq<Answer>, i: nat, k: nat, hash: Hash, who: Identity, now: int)
    requires 0 < k < |ops| == |answers| && i < k - 1
    requires MintedAt(ops[1..], answers[1..], i, k - 1, hash, who, now)
    ensures MintedAt(ops, answers, i + 1, k, hash, who, now)
  {
    forall j | i + 1 < j < k
      ensures !Spends(ops[j], answers[j], hash)
    {
      assert ops[j] == ops[1..][j - 1] && answers[j] == answers[1..][j - 1];
    }
  }

  lemma HeldStep(sweep: bool, s: Tables, op: Op, hash: Hash, who: Identity, now: int)
    ensures var p := Perform(sweep, s, op);
            var (t, a) := (p.tables.tokens, p.answer);
            hash in t && t[hash].who == who && t[hash].expires > now ==>
            || (Mints(op, a, hash) && op.who == who && op.expires > now)
            || (hash in s.tokens && s.tokens[hash].who == who && s.tokens[hash].expires > now && !Spends(op, a, hash))
  {
  }

  lemma {:induction false} AnswerAt(sweep: bool, s: Tables, ops: seq<Op>, k: nat)
    requires k < |ops|
    ensures Run(sweep, s, ops).answers[k] == Perform(sweep, Run(sweep, s, ops[..k]).tables, ops[k]).answer
    decreases k
  {
    if k > 0 {
      assert ops[..k][1..] == ops[1..][..k - 1];
      AnswerAt(sweep, Perform(sweep, s, ops[0]).tables, ops[1..], k - 1);
    }
  }

  /** From empty tables, whoever redeems a token gets the identity it was minted for, before it expires
      and for the first time since it was minted. */
  lemma EveryLoginWasMinted(sweep: bool, ops: seq<Op>, k: nat)
    requires k < |ops| && (ops[k].Redeem? || ops[k].Exchange?)
    requires Run(sweep, Tables(map[], map[]), ops).answers[k].Known?
    ensures var answers := Run(sweep, Tables(map[], map[]), ops).answers;
            var hash := if ops[k].Redeem? then ops[k].hash else ops[k].minted;
            exists i | 0 <= i < k :: MintedAt(ops, answers, i, k, hash, answers[k].who, Begins(ops[k], 0))
  {
    var empty := Tables(map[], map[]);
    var hash := if ops[k].Redeem? then ops[k].hash else ops[k].minted;
    AnswerAt(sweep, empty, ops, k);
    TokenTraced(sweep, empty, ops, k, hash, Run(sweep, empty, ops).answers[k].who, Begins(ops[k], 0));
  }

  // ----- Sessions -----

  /** The operation opens a session for this identity that is still valid at `now`. */
  predicate Opens(op: Op, a: Answer, hash: Hash, who: Identity, now: int) {
    || (op.Create? && a == Done && op.hash == hash && op.who == who && op.expires > now)
    || (op.Exchange? && a == Known(who) && op.credential == Some(hash)
        && op.createdAt + SESSION_CREDENTIAL_TTL > now)
  }

  /** A session found at step `k` was opened at step `i` and not revoked in between. */
  predicate OpenedAt(ops: seq<Op>, answers: seq<Answer>, i: nat, k: nat, hash: Hash, who: Identity, now: int)
    requires i < k <= |ops| == |answers|
  {
    Opens(ops[i], answers[i], hash, who, now) && forall j | i < j < k :: ops[j] != Revoke(hash)
  }

  predicate OpenFrom(s: Tables, ops: seq<Op>, k: nat, hash: Hash, who: Identity, now: int)
    requires k <= |ops|
  {
    Found(s.sessions, hash, now) == Known(who) && forall j | 0 <= j < k :: ops[j] != Revoke(hash)
  }

  lemma OpenStep(sweep: bool, s: Tables, op: Op, hash: Hash, who: Identity, now: int)
    ensures var p := Perform(sweep, s, op);
            Found(p.tables.sessions, hash, now) == Known(who) ==>
              || Opens(op, p.answer, hash, who, now)
              || (Found(s.sessions, hash, now) == Known(who) && op != Revoke(hash))
  {
  }

  lemma {:induction false} SessionTraced(sweep: bool, s: Tables, ops: seq<Op>, hash: Hash, who: Identity, now: int)
    requires Found(Run(sweep, s, ops).tables.sessions, hash, now) == Known(who)
    ensures var answers := Run(sweep, s, ops).answers;
            || OpenFrom(s, ops, |ops|, hash, who, now)
            || exists i | 0 <= i < |ops| :: OpenedAt(ops, answers, i, |ops|, hash, who, now)
    decreases |ops|
  {
    if ops != [] {
      var first := Perform(sweep, s, ops[0]);
      var tail, n := ops[1..], |ops| - 1;
      var run, rest := Run(sweep, s, ops).answers, Run(sweep, first.tables, tail).answers;
      assert run == [first.answer] + rest;
      SessionTraced(sweep, first.tables, tail, hash, who, now);
      OpenStep(sweep, s, ops[0], hash, who, now);
      if OpenFrom(first.tables, tail, n, hash, who, now) {
        if Opens(ops[0], first.answer, hash, who, now) {
          assert OpenedAt(ops, run, 0, |ops|, hash, who, now);
        }
      } else {
        var i :| 0 <= i < n && OpenedAt(tail, rest, i, n, hash, who, now);
        assert OpenedAt(ops, run, i + 1, |ops|, hash, who, now);
      }
    }
  }

  /** From empty tables, a session that answers was opened for that identity, has not expired and has not
      been revoked since. */
  lemma EverySessionWasOpened(sweep: bool, ops: seq<Op>, hash: Hash, who: Identity, now: int)
    requires Found(Run(sweep, Tables(map[], map[]), ops).tables.sessions, hash, now) == Known(who)
    ensures var answers := Run(sweep, Tables(map[], map[]), ops).answers;
            exists i | 0 <= i < |ops| :: OpenedAt(ops, answers, i, |ops|, hash, who, now)
  {
    SessionTraced(sweep, Tables(map[], map[]), ops, hash, who, now);
  }
}
