/** One-shot login tokens and session credentials (internal/db/sql_repository.go, internal/api/session.go). */
module TokenStore {
  import opened Wrappers

  type Hash = string

  const SESSION_CREDENTIAL_TTL := 12 * 60 * 60

  datatype Identity = Identity(login: string, name: string, admin: bool, client: int)

  datatype Entry = Entry(who: Identity, expires: int)

  type Table = map<Hash, Entry>

  datatype Tables = Tables(tokens: Table, sessions: Table)

  datatype Op =
    | Mint(hash: Hash, who: Identity, now: int, expires: int)
    | Redeem(hash: Hash, now: int)
    | Create(hash: Hash, who: Identity, now: int, expires: int)
    | Lookup(hash: Hash, now: int)
    | Revoke(hash: Hash)
    | Exchange(minted: Hash, redeemedAt: int, credential: Option<Hash>, createdAt: int)

  datatype Answer =
    | Done
    | Conflict          // the hash is taken: the primary key refuses the row
    | NoSuchToken
    | NoCredential      // no session credential could be generated
    | Known(who: Identity)

  // ----- What each operation does -----

  function Swept(t: Table, now: int): Table {
    map h | h in t && t[h].expires > now :: t[h]
  }

  /** A table afterwards, and the answer. */
  datatype Changed = Changed(table: Table, answer: Answer)

  /** Inserting a row; a sweeping store first drops what has expired by now. */
  function Inserted(sweep: bool, t: Table, hash: Hash, e: Entry, now: int): Changed {
    var kept := if sweep then Swept(t, now) else t;
    if hash in kept then Changed(kept, Conflict) else Changed(kept[hash := e], Done)
  }

  function Found(t: Table, hash: Hash, now: int): Answer {
    if hash in t && t[hash].expires > now then Known(t[hash].who) else NoSuchToken
  }

  function Redeemed(t: Table, hash: Hash, now: int): Changed {
    Changed(if Found(t, hash, now).Known? then t - {hash} else t, Found(t, hash, now))
  }

  datatype Performed = Performed(tables: Tables, answer: Answer)

  function Exchanged(sweep: bool, s: Tables, minted: Hash, redeemedAt: int, credential: Option<Hash>, createdAt: int)
    : Performed
  {
    var redeemed := Redeemed(s.tokens, minted, redeemedAt);
    if !redeemed.answer.Known? then Performed(s, NoSuchToken)
    else if credential.None? then Performed(s.(tokens := redeemed.table), NoCredential)
    else
      var e := Entry(redeemed.answer.who, createdAt + SESSION_CREDENTIAL_TTL);
      var created := Inserted(sweep, s.sessions, credential.value, e, createdAt);
      Performed(Tables(redeemed.table, created.table),
                if created.answer == Done then redeemed.answer else created.answer)
  }

  function Perform(sweep: bool, s: Tables, op: Op): Performed {
    match op
    case Mint(hash, who, now, expires) =>
      var c := Inserted(sweep, s.tokens, hash, Entry(who, expires), now);
      Performed(s.(tokens := c.table), c.answer)
    case Redeem(hash, now) =>
      var c := Redeemed(s.tokens, hash, now);
      Performed(s.(tokens := c.table), c.answer)
    case Create(hash, who, now, expires) =>
      var c := Inserted(sweep, s.sessions, hash, Entry(who, expires), now);
      Performed(s.(sessions := c.table), c.answer)
    case Lookup(hash, now) => Performed(s, Found(s.sessions, hash, now))
    case Revoke(hash) => Performed(s.(sessions := s.sessions - {hash}), Done)
    case Exchange(minted, redeemedAt, credential, createdAt) =>
      Exchanged(sweep, s, minted, redeemedAt, credential, createdAt)
  }

  // ----- The store as the program has it -----

  class Store {
    var tokens: Table
    var sessions: Table

    constructor ()
      ensures Now() == Tables(map[], map[])
    {
      tokens, sessions := map[], map[];
    }

    function Now(): Tables
      reads this
    {
      Tables(tokens, sessions)
    }

    method MintSessionToken(hash: Hash, who: Identity, now: int, expires: int) returns (a: Answer)
      modifies this
      ensures Performed(Now(), a) == Perform(true, old(Now()), Mint(hash, who, now, expires))
    {
      tokens := map h | h in tokens && !(tokens[h].expires <= now) :: tokens[h];
      if hash in tokens {
        return Conflict;
      }
      tokens := tokens[hash := Entry(who, expires)];
      a := Done;
    }

    method RedeemSessionToken(hash: Hash, now: int) returns (a: Answer)
      modifies this
      ensures Performed(Now(), a) == Perform(true, old(Now()), Redeem(hash, now))
    {
      if hash in tokens && tokens[hash].expires > now {
        a := Known(tokens[hash].who);
        tokens := tokens - {hash};
      } else {
        a := NoSuchToken;
      }
    }

    method CreateAPISession(hash: Hash, who: Identity, now: int, expires: int) returns (a: Answer)
      modifies this
      ensures Performed(Now(), a) == Perform(true, old(Now()), Create(hash, who, now, expires))
    {
      sessions := map h | h in sessions && !(sessions[h].expires <= now) :: sessions[h];
      if hash in sessions {
        return Conflict;
      }
      sessions := sessions[hash := Entry(who, expires)];
      a := Done;
    }

    method LookupAPISession(hash: Hash, now: int) returns (a: Answer)
      ensures Performed(Now(), a) == Perform(true, Now(), Lookup(hash, now))
    {
      a := if hash in sessions && sessions[hash].expires > now then Known(sessions[hash].who) else NoSuchToken;
    }

    method RevokeAPISession(hash: Hash)
      modifies this
      ensures Performed(Now(), Done) == Perform(true, old(Now()), Revoke(hash))
    {
      sessions := sessions - {hash};
    }

    /** Spends a minted token for a session credential. */
    method ExchangeSessionToken(minted: Hash, redeemedAt: int, credential: Option<Hash>, createdAt: int)
      returns (a: Answer)
      modifies this
      ensures Performed(Now(), a) == Perform(true, old(Now()), Exchange(minted, redeemedAt, credential, createdAt))
    {
      a := RedeemSessionToken(minted, redeemedAt);
      if a == NoSuchToken {
        return;
      }
      if credential.None? {
        return NoCredential;
      }
      var created := CreateAPISession(credential.value, a.who, createdAt, createdAt + SESSION_CREDENTIAL_TTL);
      if created != Done {
        a := created;
      }
    }
  }
}
