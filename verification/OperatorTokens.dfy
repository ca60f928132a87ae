/** Operator access to coderd through its Postgres database: the operator user, its organization
    memberships, and its API token, each ensured in one transaction that is rolled back when any
    statement fails. Transactions run one at a time. */
module OperatorTokens {
  import opened Results
  import opened Text

  // ----- The database -----

  /** A user id of 0 stands for the nil UUID. */
  datatype User = User(username: string, email: string, deleted: bool, owner: bool)

  datatype Key = Key(hashedSecret: nat, userId: nat, isToken: bool, tokenName: string,
                     createdAt: int, expiresAt: int, lifetimeSeconds: int)

  type Keys = map<string, Key>

  /** `organizations` says which are deleted; `admins` holds (organization, user) pairs. */
  datatype Db = Db(users: map<nat, User>, organizations: map<nat, bool>, admins: set<(nat, nat)>, keys: Keys)

  /** What is not the operator's own: the secret hash, Postgres' lower-casing, and the rounding
      of a stored time (times are nanoseconds, stored to the nearest microsecond). */
  datatype Platform = Platform(hash: string -> nat, lower: string -> string, stored: int -> int)

  ghost predicate RoundsTimes(p: Platform) {
    forall t: int :: t - 1000 <= p.stored(t) <= t + 1000
  }

  datatype Request = Request(username: string, email: string, tokenName: string, lifetime: int, existing: string)

  const SECOND: int := 1_000_000_000

  predicate ValidRequest(req: Request) {
    TrimSpace(req.username) != "" && TrimSpace(req.email) != "" && TrimSpace(req.tokenName) != "" && req.lifetime > 0
  }

  // ----- Token text -----

  /** The id and the secret of a token. */
  function SplitToken(token: string): Option<(string, string)> {
    var cut := Cut(TrimSpace(token), '-');
    if cut.None? || cut.value.0 == "" || cut.value.1 == "" then None else cut
  }

  const CHARSET_LENGTH: nat := 62
  const REJECT_ABOVE: nat := 255 - 256 % CHARSET_LENGTH
  const ID_LENGTH: nat := 10
  const SECRET_LENGTH: nat := 22

  /** Digits, then upper case, then lower case. */
  function Symbol(k: nat): char
    requires k < CHARSET_LENGTH
  {
    if k < 10 then '0' + k as char else if k < 36 then 'A' + (k - 10) as char else 'a' + (k - 36) as char
  }

  predicate Kept(b: byte) {
    b <= REJECT_ABOVE
  }

  function SymbolOf(b: byte): char {
    Symbol(b % CHARSET_LENGTH)
  }

  predicate TokenText(s: string) {
    forall i :: 0 <= i < |s| ==> s[i] != '-' && !IsSpace(s[i])
  }

  /** Every symbol is drawn by exactly four of the bytes that are not rejected, so a uniform
      byte source gives uniform symbols. */
  lemma SymbolsAreUniform(k: nat)
    requires k < CHARSET_LENGTH
    ensures var bs := set b: byte | Kept(b) && SymbolOf(b) == Symbol(k);
            |bs| == 4 && bs == {k, (k + 62), (k + 124), (k + 186)}
  {
    var bs := set b: byte | Kept(b) && SymbolOf(b) == Symbol(k);
    var b0, b1, b2, b3 := k, (k + 62), (k + 124), (k + 186);
    forall b: byte ensures b in bs <==> b in {b0, b1, b2, b3} {
      BytesOfSymbol(k, b);
    }
    assert bs == {b0, b1, b2, b3};
    assert |{b0, b1, b2, b3}| == 4 by {
      FourBytes(b0, b1, b2, b3);
    }
  }

  lemma BytesOfSymbol(k: nat, n: nat)
    requires k < CHARSET_LENGTH && n < 256
    ensures (n <= REJECT_ABOVE && Symbol(n % CHARSET_LENGTH) == Symbol(k)) <==> n in {k, k + 62, k + 124, k + 186}
  {
    if n % CHARSET_LENGTH != k {
      SymbolsDiffer(n % CHARSET_LENGTH, k);
    }
    assert n == n / 62 * 62 + n % 62;
  }

  lemma SymbolsDiffer(i: nat, j: nat)
    requires i < CHARSET_LENGTH && j < CHARSET_LENGTH && i != j
    ensures Symbol(i) != Symbol(j)
  {
  }

  lemma FourBytes(a: byte, b: byte, c: byte, d: byte)
    requires a < b < c < d
    ensures |{a, b, c, d}| == 4
  {
    assert |{a} + {b} + {c} + {d}| == 4;
    assert {a, b, c, d} == {a} + {b} + {c} + {d};
  }

  /** The symbols that a run of random bytes yields. */
  function Drawn(bytes: seq<byte>): string {
    if bytes == [] then ""
    else
      var rest, b := Drawn(bytes[..|bytes| - 1]), bytes[|bytes| - 1];
      if Kept(b) then rest + [SymbolOf(b)] else rest
  }

  lemma {:induction false} DrawnIsTokenText(bytes: seq<byte>)
    ensures TokenText(Drawn(bytes))
  {
    if bytes != [] {
      DrawnIsTokenText(bytes[..|bytes| - 1]);
    }
  }

  /** A token part of the given length, drawn without bias from the random source; fails exactly
      when the source ends before it has yielded enough symbols. `used` bytes were consumed. */
  method RandomTokenPart(random: seq<byte>, length: nat) returns (part: Option<string>, used: nat)
    requires length > 0
    ensures used <= |random|
    ensures part.Some? ==> |part.value| == length && part.value == Drawn(random[..used]) && TokenText(part.value)
    ensures part.None? ==> used == |random| && |Drawn(random)| < length
  {
    var output := "";
    used := 0;
    while |output| < length
      invariant used <= |random| && |output| <= length && output == Drawn(random[..used])
      decreases |random| - used
    {
      if used == |random| {
        assert random[..used] == random;
        return None, used;
      }
      assert random[..used + 1][..used] == random[..used];
      if Kept(random[used]) {
        output := output + [SymbolOf(random[used])];
      }
      used := used + 1;
    }
    DrawnIsTokenText(random[..used]);
    part := Some(output);
  }

  lemma TokenSplits(id: string, secret: string)
    requires TokenText(id) && TokenText(secret) && id != "" && secret != ""
    ensures var token := id + "-" + secret; Trimmed(token) && SplitToken(token) == Some((id, secret))
  {
    var token := id + "-" + secret;
    assert token[0] == id[0] && token[|token| - 1] == secret[|secret| - 1];
    TrimMeaning(token);
    CutJoin(id, '-', secret);
  }

  // ----- What the token step does to api_keys -----

  /** The row is the managed token of this user and name. */
  predicate Held(k: Key, user: nat, name: string) {
    k.isToken && k.userId == user && k.tokenName == name
  }

  /** The text is a live token: it splits into the id and secret of an unexpired row. */
  predicate Live(p: Platform, keys: Keys, user: nat, name: string, token: string, now: int) {
    var parts := SplitToken(token);
    && parts.Some?
    && parts.value.0 in keys
    && var k := keys[parts.value.0];
       Held(k, user, name) && k.hashedSecret == p.hash(parts.value.1) && k.expiresAt > now
  }

  function Without(keys: Keys, users: set<nat>, name: string): Keys {
    map id | id in keys && !(keys[id].userId in users && Held(keys[id], keys[id].userId, name)) :: keys[id]
  }

  /** A live token is returned as it is and nothing changes; otherwise every token row of this
      user and name gives way to one new row, which the returned token opens until it expires. */
  ghost predicate TokenEnsured(p: Platform, keys: Keys, keys': Keys, user: nat, req: Request, now: int, token: string) {
    var existing := TrimSpace(req.existing);
    if Live(p, keys, user, req.tokenName, existing, now) then token == existing && keys' == keys
    else
      && req.lifetime >= SECOND
      && Trimmed(token)
      && var parts := SplitToken(token);
         && parts.Some?
         && parts.value.0 !in Without(keys, {user}, req.tokenName)
         && keys' == Without(keys, {user}, req.tokenName)[parts.value.0 :=
              Key(p.hash(parts.value.1), user, true, req.tokenName, p.stored(now), p.stored(now + req.lifetime), req.lifetime / SECOND)]
  }

  // ----- What the user and membership steps do -----

  predicate Active(p: Platform, users: map<nat, User>, username: string, id: nat) {
    id in users && !users[id].deleted && p.lower(users[id].username) == p.lower(username)
  }

  /** No two active users share a name up to case, as coderd's own index demands. */
  ghost predicate UniqueNames(p: Platform, users: map<nat, User>) {
    forall i, j :: i in users && !users[i].deleted && Active(p, users, users[i].username, j) ==> i == j
  }

  /** The user is active under the requested name and has the operator's attributes; it is an
      existing user when there is one, and no other user changes. */
  ghost predicate UserEnsured(p: Platform, users: map<nat, User>, users': map<nat, User>, req: Request, user: nat) {
    && user != 0
    && (Active(p, users, req.username, user) || (user !in users && forall id :: id in users ==> !Active(p, users, req.username, id)))
    && users' == users[user := User(if user in users then users[user].username else req.username, req.email, false, true)]
  }

  /** The given user in every organization that is not deleted. */
  function Memberships(organizations: map<nat, bool>, user: nat): set<(nat, nat)> {
    set o | o in organizations && !organizations[o] :: (o, user)
  }

  /** The whole effect of a committed ensure transaction. */
  ghost predicate AccessEnsured(p: Platform, db: Db, db': Db, req: Request, now: int, user: nat, token: string) {
    && ValidRequest(req)
    && UserEnsured(p, db.users, db'.users, req, user)
    && db'.organizations == db.organizations
    && Memberships(db.organizations, user) != {}
    && db'.admins == db.admins + Memberships(db.organizations, user)
    && TokenEnsured(p, db.keys, db'.keys, user, req, now, token)
  }

  function Owners(p: Platform, users: map<nat, User>, username: string): set<nat> {
    set id | id in users && Active(p, users, username, id)
  }

  /** The whole effect of a committed revoke transaction. */
  ghost predicate AccessRevoked(p: Platform, db: Db, db': Db, username: string, name: string) {
    db' == db.(keys := Without(db.keys, Owners(p, db.users, username), name))
  }

  // ----- Properties of the effects -----

  /** Exactly which texts are live tokens. */
  lemma LiveMeaning(p: Platform, keys: Keys, user: nat, name: string, token: string, now: int)
    ensures Live(p, keys, user, name, token, now) <==>
            exists id: string, secret: string ::
              && TrimSpace(token) == id + "-" + secret && '-' !in id && id != "" && secret != ""
              && id in keys && keys[id].isToken && keys[id].userId == user && keys[id].tokenName == name
              && keys[id].hashedSecret == p.hash(secret) && keys[id].expiresAt > now
  {
    hide TrimSpace;
    forall id: string, secret: string | TrimSpace(token) == id + "-" + secret && '-' !in id
      ensures Cut(TrimSpace(token), '-') == Some((id, secret))
    {
      CutJoin(id, '-', secret);
    }
    if Live(p, keys, user, name, token, now) {
      var parts := SplitToken(token).value;
      assert TrimSpace(token) == parts.0 + "-" + parts.1;
    }
  }

  /** The symbols are the digits and the letters. */
  lemma SymbolsAreAlphanumeric(c: char)
    ensures (exists k: nat :: k < CHARSET_LENGTH && Symbol(k) == c) <==> '0' <= c <= '9' || 'A' <= c <= 'Z' || 'a' <= c <= 'z'
  {
    if '0' <= c <= '9' {
      assert Symbol((c - '0') as nat) == c;
    } else if 'A' <= c <= 'Z' {
      assert Symbol((c - 'A') as nat + 10) == c;
    } else if 'a' <= c <= 'z' {
      assert Symbol((c - 'a') as nat + 36) == c;
    }
  }

  /** A token that a committed ensure returned is live in the table it left behind, and was not
      padded with white space. */
  lemma EnsuredTokenIsLive(p: Platform, keys: Keys, keys': Keys, user: nat, req: Request, now: int, token: string)
    requires RoundsTimes(p) && TokenEnsured(p, keys, keys', user, req, now, token)
    ensures Live(p, keys', user, req.tokenName, token, now) && Trimmed(token)
  {
    TrimMeaning(req.existing);
    var _ := p.stored(now + req.lifetime);
  }

  /** Ensuring again with a token that is still live returns it and changes no key, whatever the
      lifetime or the random source. */
  lemma LiveTokenIsReused(p: Platform, db: Db, mid: Db, db': Db, req: Request, again: Request, now: int, later: int,
                          user: nat, user2: nat, token: string, token2: string)
    requires RoundsTimes(p) && UniqueNames(p, db.users)
    requires AccessEnsured(p, db, mid, req, now, user, token)
    requires again.username == req.username && again.tokenName == req.tokenName && TrimSpace(again.existing) == token
    requires Live(p, mid.keys, user, req.tokenName, token, later)
    requires AccessEnsured(p, mid, db', again, later, user2, token2)
    ensures token2 == token && db'.keys == mid.keys && user2 == user && db'.admins == mid.admins
    ensures UniqueNames(p, mid.users)
  {
    hide TokenEnsured, Live, TrimSpace;
    UserStaysUnique(p, db.users, mid.users, req, user);
    assert Active(p, mid.users, mid.users[user].username, user2);
    ReusedToken(p, mid.keys, db'.keys, user, again, later, token2);
  }

  lemma ReusedToken(p: Platform, keys: Keys, keys': Keys, user: nat, req: Request, now: int, token: string)
    requires TokenEnsured(p, keys, keys', user, req, now, token)
    requires Live(p, keys, user, req.tokenName, TrimSpace(req.existing), now)
    ensures token == TrimSpace(req.existing) && keys' == keys
  {
  }

  lemma UserStaysUnique(p: Platform, users: map<nat, User>, users': map<nat, User>, req: Request, user: nat)
    requires UniqueNames(p, users) && UserEnsured(p, users, users', req, user)
    ensures UniqueNames(p, users') && Active(p, users', req.username, user)
  {
    forall i, j | i in users' && !users'[i].deleted && Active(p, users', users'[i].username, j) ensures i == j {
      assert i in users ==> Active(p, users, users[i].username, i);
      assert i in users && j in users ==> Active(p, users, users[i].username, j);
    }
  }

  /** How long a freshly minted token stays live. */
  lemma MintedTokenLasts(p: Platform, keys: Keys, keys': Keys, user: nat, req: Request, now: int, token: string, later: int)
    requires RoundsTimes(p) && TokenEnsured(p, keys, keys', user, req, now, token)
    requires !Live(p, keys, user, req.tokenName, TrimSpace(req.existing), now)
    ensures later < now + req.lifetime - 1000 ==> Live(p, keys', user, req.tokenName, token, later)
    ensures later >= now + req.lifetime + 1000 ==> !Live(p, keys', user, req.tokenName, token, later)
  {
    var _ := p.stored(now + req.lifetime);
  }

  /** Revoking ends every live token of that user and name. */
  lemma RevokedTokenIsDead(p: Platform, db: Db, db': Db, username: string, name: string, user: nat, token: string, now: int)
    requires AccessRevoked(p, db, db', username, name) && Active(p, db.users, username, user)
    ensures !Live(p, db'.keys, user, name, token, now)
  {
  }

  // ----- Runs -----

  /** At most one token row per user and name. */
  predicate OneRowEach(keys: Keys) {
    forall i, j :: i in keys && j in keys && keys[i].isToken && Held(keys[j], keys[i].userId, keys[i].tokenName) ==> i == j
  }

  datatype Op =
    | Ensure(req: Request, now: int, user: nat, token: string)
    | Revoke(username: string, name: string)
    | RolledBack

  ghost predicate Effect(p: Platform, op: Op, db: Db, db': Db) {
    match op
    case Ensure(req, now, user, token) => AccessEnsured(p, db, db', req, now, user, token)
    case Revoke(username, name) => AccessRevoked(p, db, db', username, name)
    case RolledBack => db' == db
  }

  ghost predicate IsRun(p: Platform, ops: seq<Op>, dbs: seq<Db>) {
    && |dbs| == |ops| + 1
    && forall i :: 0 <= i < |ops| ==> Effect(p, ops[i], dbs[i], dbs[i + 1])
  }

  /** The rows an operation may touch, given the users it finds. */
  predicate Concerns(p: Platform, users: map<nat, User>, op: Op, k: Key) {
    match op
    case Ensure(req, _, user, _) => Held(k, user, req.tokenName)
    case Revoke(username, name) => Held(k, k.userId, name) && Active(p, users, username, k.userId)
    case RolledBack => false
  }

  ghost predicate SameOthers(p: Platform, users: map<nat, User>, op: Op, keys: Keys, keys': Keys) {
    && (forall id :: id in keys && !Concerns(p, users, op, keys[id]) ==> id in keys' && keys'[id] == keys[id])
    && (forall id :: id in keys' && !Concerns(p, users, op, keys'[id]) ==> id in keys && keys[id] == keys'[id])
  }

  /** One operation keeps one row per user and name, and leaves every row of another user or
      token name as it is. */
  lemma EffectKeepsRows(p: Platform, op: Op, db: Db, db': Db)
    requires Effect(p, op, db, db')
    ensures OneRowEach(db.keys) ==> OneRowEach(db'.keys)
    ensures SameOthers(p, db.users, op, db.keys, db'.keys)
  {
    if op.Ensure? {
      EnsureKeepsRows(p, db.users, db.keys, db'.keys, op.user, op.req, op.now, op.token);
    }
  }

  /** Keys that are not API tokens, that have another token name, or that belong to another user
      stay as they are. */
  lemma OtherKeysStay(p: Platform, op: Op, db: Db, db': Db, id: string)
    requires Effect(p, op, db, db') && id in db.keys
    requires var k := db.keys[id];
             match op
             case Ensure(req, _, user, _) => !k.isToken || k.tokenName != req.tokenName || k.userId != user
             case Revoke(username, name) =>
               || !k.isToken || k.tokenName != name || k.userId !in db.users || db.users[k.userId].deleted
               || p.lower(db.users[k.userId].username) != p.lower(username)
             case RolledBack => true
    ensures id in db'.keys && db'.keys[id] == db.keys[id]
  {
    hide SplitToken, TrimSpace, Trimmed;
    EffectKeepsRows(p, op, db, db');
  }

  lemma EnsureKeepsRows(p: Platform, users: map<nat, User>, keys: Keys, keys': Keys, user: nat, req: Request, now: int, token: string)
    requires TokenEnsured(p, keys, keys', user, req, now, token)
    ensures OneRowEach(keys) ==> OneRowEach(keys')
    ensures SameOthers(p, users, Ensure(req, now, user, token), keys, keys')
  {
    hide SplitToken, TrimSpace, Trimmed, OneRowEach, Without;
    if !Live(p, keys, user, req.tokenName, TrimSpace(req.existing), now) {
      var id := SplitToken(token).value.0;
      OnlyOthersRemain(keys, user, req.tokenName);
      ReplacementIsAlone(keys, user, req.tokenName, id, keys'[id]);
    }
  }

  lemma OnlyOthersRemain(keys: Keys, user: nat, name: string)
    ensures forall id :: id in Without(keys, {user}, name) <==> id in keys && !Held(keys[id], user, name)
    ensures forall id :: id in Without(keys, {user}, name) ==> Without(keys, {user}, name)[id] == keys[id]
  {
  }

  lemma ReplacementIsAlone(keys: Keys, user: nat, name: string, id: string, row: Key)
    requires Held(row, user, name)
    ensures OneRowEach(keys) ==> OneRowEach(Without(keys, {user}, name)[id := row])
  {
    OnlyOthersRemain(keys, user, name);
    hide Without;
  }

  /** In every run of ensures, revokes and rolled-back attempts from a table with at most one row
      per user and token name, the table keeps at most one, and the rows that no operation
      concerns are at the end exactly what they were. */
  lemma {:induction false} RunsKeepRows(p: Platform, ops: seq<Op>, dbs: seq<Db>)
    requires IsRun(p, ops, dbs)
    ensures OneRowEach(dbs[0].keys) ==> OneRowEach(dbs[|ops|].keys)
    ensures forall id :: id in dbs[0].keys && Unconcerned(p, ops, dbs, dbs[0].keys[id]) ==>
              id in dbs[|ops|].keys && dbs[|ops|].keys[id] == dbs[0].keys[id]
    ensures forall id :: id in dbs[|ops|].keys && Unconcerned(p, ops, dbs, dbs[|ops|].keys[id]) ==>
              id in dbs[0].keys && dbs[0].keys[id] == dbs[|ops|].keys[id]
    decreases |ops|
  {
    if ops != [] {
      var n := |ops| - 1;
      RunsKeepRows(p, ops[..n], dbs[..|ops|]);
      assert Effect(p, ops[n], dbs[n], dbs[n + 1]);
      EffectKeepsRows(p, ops[n], dbs[n], dbs[n + 1]);
      forall k: Key | Unconcerned(p, ops, dbs, k)
        ensures Unconcerned(p, ops[..n], dbs[..|ops|], k) && !Concerns(p, dbs[n].users, ops[n], k)
      {
      }
    }
  }

  predicate Unconcerned(p: Platform, ops: seq<Op>, dbs: seq<Db>, k: Key)
    requires |dbs| == |ops| + 1
  {
    forall i :: 0 <= i < |ops| ==> !Concerns(p, dbs[i].users, ops[i], k)
  }

  /** The caller always presents the token it holds, in time, and no one revokes it. */
  predicate PresentsToken(p: Platform, users: map<nat, User>, op: Op, user: nat, name: string, token: string, deadline: int) {
    match op
    case Ensure(req, now, u, _) => u == user && req.tokenName == name ==> TrimSpace(req.existing) == token && now < deadline
    case Revoke(username, n) => n != name || !Active(p, users, username, user)
    case RolledBack => true
  }

  /** A caller that keeps presenting a token which lives until `deadline` is given that same
      token by every ensure of the run, and its row is never touched. */
  lemma {:induction false} PresentedTokenIsStable(p: Platform, ops: seq<Op>, dbs: seq<Db>, user: nat, name: string,
                                                  token: string, deadline: int)
    requires IsRun(p, ops, dbs)
    requires Live(p, dbs[0].keys, user, name, token, deadline - 1)
    requires forall i :: 0 <= i < |ops| ==> PresentsToken(p, dbs[i].users, ops[i], user, name, token, deadline)
    ensures forall i :: 0 <= i < |ops| && ops[i].Ensure? && ops[i].user == user && ops[i].req.tokenName == name ==>
              ops[i].token == token
    ensures Live(p, dbs[|ops|].keys, user, name, token, deadline - 1)
    ensures var id := SplitToken(token).value.0; dbs[|ops|].keys[id] == dbs[0].keys[id]
    decreases |ops|
  {
    hide SplitToken, TrimSpace;
    if ops != [] {
      var n := |ops| - 1;
      assert forall i :: 0 <= i < n ==> ops[..n][i] == ops[i];
      PresentedTokenIsStable(p, ops[..n], dbs[..|ops|], user, name, token, deadline);
      assert Effect(p, ops[n], dbs[n], dbs[n + 1]) && PresentsToken(p, dbs[n].users, ops[n], user, name, token, deadline);
      EffectKeepsRows(p, ops[n], dbs[n], dbs[n + 1]);
    }
  }

  // ----- The transactions -----

  /** Which statements of a transaction work. */
  datatype Statements = Statements(connect: bool, findUser: bool, insertUser: bool, updateUser: bool,
                                   listOrganizations: bool, upsertMember: nat -> bool,
                                   findToken: bool, deleteTokens: bool, insertToken: bool, commit: Call) {
    ghost predicate AllWork() {
      && connect && findUser && insertUser && updateUser && listOrganizations && findToken && deleteTokens && insertToken
      && commit.Done? && (forall o :: upsertMember(o))
    }
  }

  class Database {
    var db: Db

    /** Inserts the operator user if no active user has its name, and enforces its attributes. */
    method EnsureOperatorUser(p: Platform, req: Request, newId: nat, st: Statements) returns (user: Option<nat>)
      modifies this
      ensures user.Some? ==> UserEnsured(p, old(db.users), db.users, req, user.value)
      ensures db == old(db).(users := db.users)
      ensures user.Some? ==> Active(p, old(db.users), req.username, user.value) || user.value == newId
      ensures user.Some? ==> st.findUser && st.updateUser && (user.value !in old(db.users) ==> st.insertUser)
      ensures st.AllWork() && newId != 0 && newId !in old(db.users) && 0 !in old(db.users) ==> user.Some?
    {
      if !st.findUser {
        return None;
      }
      var id: nat;
      var matches := Owners(p, db.users, req.username);
      if matches != {} {
        id :| id in matches;
      } else {
        id := newId;
        if !st.insertUser || id in db.users {
          return None;
        }
        assert forall u :: u in db.users && Active(p, db.users, req.username, u) ==> u in matches;
        db := db.(users := db.users[id := User(req.username, req.email, false, true)]);
      }
      if id == 0 || !st.updateUser {
        return None;
      }
      db := db.(users := db.users[id := db.users[id].(email := req.email, owner := true)]);
      user := Some(id);
    }

    /** Makes the user an administrator of every organization that is not deleted. */
    method EnsureOperatorMemberships(user: nat, st: Statements) returns (ok: bool)
      modifies this
      ensures db == old(db).(admins := db.admins)
      ensures ok ==> Memberships(db.organizations, user) != {}
                     && db.admins == old(db.admins) + Memberships(db.organizations, user)
      ensures ok ==> st.listOrganizations && forall o :: o in db.organizations && !db.organizations[o] ==> st.upsertMember(o)
      ensures st.AllWork() && Memberships(db.organizations, user) != {} ==> ok
    {
      if !st.listOrganizations {
        return false;
      }
      var todo := set o | o in db.organizations && !db.organizations[o];
      if todo == {} {
        assert forall o :: o in db.organizations ==> db.organizations[o] by {
          assert forall o :: o in db.organizations && !db.organizations[o] ==> o in todo;
        }
        return false;
      }
      ghost var all, some :| some in todo && all == todo;
      assert (some, user) in Memberships(db.organizations, user);
      while todo != {}
        invariant todo <= all
        invariant db == old(db).(admins := db.admins)
        invariant forall o :: o in all && o !in todo ==> st.upsertMember(o)
        invariant db.admins == old(db.admins) + set o | o in all - todo :: (o, user)
        decreases todo
      {
        var o :| o in todo;
        if !st.upsertMember(o) {
          return false;
        }
        db := db.(admins := db.admins + {(o, user)});
        todo := todo - {o};
      }
      assert (set o | o in all - todo :: (o, user)) == Memberships(db.organizations, user);
      ok := true;
    }

    /** Replaces every token row of this user and name by one new row. */
    method RotateOperatorToken(p: Platform, user: nat, req: Request, now: int, random: seq<byte>, st: Statements)
      returns (token: Option<string>)
      requires !Live(p, db.keys, user, req.tokenName, TrimSpace(req.existing), now)
      modifies this
      ensures db == old(db).(keys := db.keys)
      ensures token.Some? ==> TokenEnsured(p, old(db.keys), db.keys, user, req, now, token.value)
      ensures token.Some? ==> st.deleteTokens && st.insertToken
      ensures token.Some? ==> |Drawn(random)| >= 32 && token.value == Drawn(random)[..10] + "-" + Drawn(random)[10..32]
      ensures token.None? && st.AllWork() ==>
                CannotMint(old(db.keys), user, req, random)
    {
      if !st.deleteTokens {
        return None;
      }
      db := db.(keys := Without(db.keys, {user}, req.tokenName));
      var id, used := RandomTokenPart(random, ID_LENGTH);
      if id.None? {
        return None;
      }
      var secret, more := RandomTokenPart(random[used..], SECRET_LENGTH);
      DrawnAppend(random, used);
      DrawnAppend(random[used..], more);
      if secret.None? {
        return None;
      }
      if req.lifetime / SECOND <= 0 {
        return None;
      }
      if !st.insertToken || id.value in db.keys {
        return None;
      }
      var text := id.value + "-" + secret.value;
      TokenSplits(id.value, secret.value);
      var row := Key(p.hash(secret.value), user, true, req.tokenName, p.stored(now), p.stored(now + req.lifetime), req.lifetime / SECOND);
      db := db.(keys := db.keys[id.value := row]);
      token := Some(text);
    }

    /** Keeps a live token, and rotates otherwise. */
    method EnsureToken(p: Platform, user: nat, req: Request, now: int, random: seq<byte>, st: Statements)
      returns (token: Option<string>)
      modifies this
      ensures db == old(db).(keys := db.keys)
      ensures token.Some? ==> TokenEnsured(p, old(db.keys), db.keys, user, req, now, token.value)
      ensures token.Some? ==> db == old(db) || (st.deleteTokens && st.insertToken)
      ensures SplitToken(TrimSpace(req.existing)).Some? && !st.findToken ==> token.None? && db == old(db)
      ensures token.None? && st.AllWork() ==> CannotMint(old(db.keys), user, req, random)
                                              && !Live(p, old(db.keys), user, req.tokenName, TrimSpace(req.existing), now)
    {
      var existing := TrimSpace(req.existing);
      if existing != "" && SplitToken(existing).Some? {
        if !st.findToken {
          return None;
        }
        if Live(p, db.keys, user, req.tokenName, existing, now) {
          return Some(existing);
        }
      }
      token := RotateOperatorToken(p, user, req, now, random, st);
    }

    /** The whole transaction. A returned token is the one specified; on failure the database is
        as before, unless the commit itself took effect and only its answer was lost. */
    method EnsureOperatorToken(p: Platform, req: Request, now: int, newId: nat, random: seq<byte>, st: Statements)
      returns (token: Option<string>)
      modifies this
      ensures token.Some? ==> exists user :: AccessEnsured(p, old(db), db, req, now, user, token.value)
      ensures token.Some? ==> st.connect && st.findUser && st.updateUser && st.listOrganizations && st.commit.Done?
      ensures TrimSpace(req.username) == "" || TrimSpace(req.email) == "" || TrimSpace(req.tokenName) == "" || req.lifetime <= 0 ==>
                token.None? && db == old(db)
      ensures token.None? ==>
                db == old(db) || (st.commit == Failed(true) && exists user, lost :: AccessEnsured(p, old(db), db, req, now, user, lost))
      ensures token.None? && st.AllWork() && newId != 0 && newId !in old(db.users) && 0 !in old(db.users) ==>
                || TrimSpace(req.username) == "" || TrimSpace(req.email) == "" || TrimSpace(req.tokenName) == "" || req.lifetime <= 0
                || exists user ::
                  && (Active(p, old(db.users), req.username, user) || user == newId)
                  && (Memberships(old(db.organizations), user) == {} ||
                      (CannotMint(old(db.keys), user, req, random) &&
                       !Live(p, old(db.keys), user, req.tokenName, TrimSpace(req.existing), now)))
    {
      hide Live, SplitToken, TrimSpace, Drawn, TokenEnsured, UserEnsured, CannotMint;
      if !ValidRequest(req) || !st.connect {
        return None;
      }
      var before := db;
      var user := EnsureOperatorUser(p, req, newId, st);
      if user.None? {
        db := before;
        return None;
      }
      var members := EnsureOperatorMemberships(user.value, st);
      if !members {
        db := before;
        return None;
      }
      token := EnsureToken(p, user.value, req, now, random, st);
      if token.None? {
        db := before;
        return None;
      }
      assert AccessEnsured(p, before, db, req, now, user.value, token.value);
      if st.commit.Failed? {
        if !st.commit.applied {
          db := before;
        }
        token := None;
      }
    }

    /** Deletes the token rows of that name of every active user with that username. */
    method RevokeOperatorToken(p: Platform, username: string, name: string, st: Statements) returns (ok: bool)
      modifies this
      ensures ok ==> AccessRevoked(p, old(db), db, username, name)
      ensures ok ==> TrimSpace(username) != "" && TrimSpace(name) != "" && st.connect && st.deleteTokens && st.commit.Done?
      ensures !ok ==> db == old(db) || (st.commit == Failed(true) && AccessRevoked(p, old(db), db, username, name))
      ensures st.AllWork() && TrimSpace(username) != "" && TrimSpace(name) != "" ==> ok
    {
      if TrimSpace(username) == "" || TrimSpace(name) == "" || !st.connect {
        return false;
      }
      var before := db;
      if !st.deleteTokens {
        return false;
      }
      db := db.(keys := Without(db.keys, Owners(p, db.users, username), name));
      ok := st.commit.Done?;
      if st.commit == Failed(false) {
        db := before;
      }
    }
  }

  /** A new token cannot be made: its life would be under a second, the random source runs dry,
      or the drawn id belongs to a row that stays. */
  predicate CannotMint(keys: Keys, user: nat, req: Request, random: seq<byte>) {
    req.lifetime < SECOND || |Drawn(random)| < ID_LENGTH + SECRET_LENGTH
    || Drawn(random)[..ID_LENGTH] in Without(keys, {user}, req.tokenName)
  }

  lemma {:induction false} DrawnAppend(random: seq<byte>, k: nat)
    requires k <= |random|
    ensures Drawn(random) == Drawn(random[..k]) + Drawn(random[k..])
    decreases |random|
  {
    if k == |random| {
      assert random[..k] == random;
    } else {
      var n := |random| - 1;
      DrawnAppend(random[..n], k);
      assert random[..n][..k] == random[..k] && random[..n][k..] == random[k..][..n - k];
      assert random[k..][n - k] == random[n];
    }
  }
}
