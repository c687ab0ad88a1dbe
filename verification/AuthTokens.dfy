/** auth-svc's accounts and refresh tokens: who may open a session, and how tokens are rotated. A token or a
    device is known by its hash; any database call may fail. */
module AuthTokens {
  import opened Text

  type AccountId = string
  type Token = string

  const TOKEN_LIFETIME := 30 * 24 * 3600
  const MIN_PASSWORD := 6

  datatype Account = Account(publicKey: string, password: Option<string>, deleted: bool)
  datatype TokenRow = TokenRow(account: AccountId, expiresAt: int)

  // The unique indexes over devices and e-mail addresses are kept beside the rows.
  datatype Tables = Tables(accounts: map<AccountId, Account>, devices: map<string, AccountId>,
                           emails: map<string, AccountId>, tokens: map<Token, TokenRow>)

  predicate Indexed(t: Tables) {
    && (forall d :: d in t.devices ==> t.devices[d] in t.accounts)
    && (forall e :: e in t.emails ==> t.emails[e] in t.accounts)
  }

  const NO_ROWS := Tables(map[], map[], map[], map[])

  type Db = t: Tables | Indexed(t) witness NO_ROWS

  // A write can be lost, or done although the caller is told that it failed.
  datatype Write = Done | Lost | Unreported

  // Identifiers and devices the service draws at random are parameters, and so is whether a password matches the
  // stored hash.
  datatype Op =
    | Register(device: string, publicKey: string, newId: AccountId, create: Write)
    | RegisterAnonymous(device: string, newId: AccountId, create: Write)
    | RegisterWithEmail(email: string, password: string, passwordHash: string, device: string, newId: AccountId,
                        create: Write)
    | SignInWithEmail(email: string, password: string, matches: bool, readFails: bool)
    | SignInWithAccountID(id: AccountId, readFails: bool)
    | Refresh(token: Token, readFails: bool, remove: Write, accountFails: bool)
    | Delete(id: AccountId, mark: Write, purge: Write)

  // `issued` is the refresh token a session would get, `store` how storing it ends.
  datatype Call = Call(now: int, op: Op, issued: Token, store: Write)

  datatype Outcome = Granted(account: AccountId, token: Token) | Refused | Removed

  predicate Exists(db: Db, a: AccountId) {
    a in db.accounts && !db.accounts[a].deleted
  }

  predicate Redeemable(db: Db, token: Token, now: int) {
    token in db.tokens && db.tokens[token].expiresAt > now
  }

  function Reported(w: Write, a: AccountId): Option<AccountId> {
    if w == Done then Some(a) else None
  }

  // A known device keeps its account, whatever its status; only the key is replaced.
  function CreateAccount(db: Db, device: string, publicKey: string, newId: AccountId, create: Write)
    : (Db, Option<AccountId>)
  {
    if create == Lost then (db, None)
    else if device in db.devices then
      var a := db.devices[device];
      (db.(accounts := db.accounts[a := db.accounts[a].(publicKey := publicKey)]), Reported(create, a))
    else if newId in db.accounts then (db, None)
    else
      (db.(accounts := db.accounts[newId := Account(publicKey, None, false)], devices := db.devices[device := newId]),
       Reported(create, newId))
  }

  // A known address is an error.
  function CreateAccountWithEmail(db: Db, email: string, passwordHash: string, device: string, newId: AccountId,
                                  create: Write): (Db, Option<AccountId>)
  {
    if create == Lost || email in db.emails || device in db.devices || newId in db.accounts then (db, None)
    else
      (db.(accounts := db.accounts[newId := Account("", Some(passwordHash), false)],
           devices := db.devices[device := newId], emails := db.emails[email := newId]), Reported(create, newId))
  }

  function WithoutToken(db: Db, token: Token): Db {
    db.(tokens := db.tokens - {token})
  }

  function WithoutAccount(db: Db, a: AccountId): Db {
    if a in db.accounts then db.(accounts := db.accounts[a := db.accounts[a].(deleted := true)]) else db
  }

  function WithoutTokensOf(db: Db, a: AccountId): Db {
    db.(tokens := map t | t in db.tokens && db.tokens[t].account != a :: db.tokens[t])
  }

  // The call up to the point where a session is opened, and for which account.
  function Admit(db: Db, now: int, op: Op): (Db, Option<AccountId>) {
    match op
    case Register(device, publicKey, newId, create) =>
      if device == "" || publicKey == "" then (db, None) else CreateAccount(db, device, publicKey, newId, create)
    case RegisterAnonymous(device, newId, create) => CreateAccount(db, device, "", newId, create)
    case RegisterWithEmail(email, password, passwordHash, device, newId, create) =>
      if email == "" || password == "" || Bytes(password) < MIN_PASSWORD then (db, None)
      else CreateAccountWithEmail(db, email, passwordHash, device, newId, create)
    case SignInWithEmail(email, password, matches, readFails) =>
      if email == "" || password == "" || readFails || email !in db.emails then (db, None)
      else
        var a := db.emails[email];
        (db, if Exists(db, a) && db.accounts[a].password.Some? && matches then Some(a) else None)
    case SignInWithAccountID(id, readFails) => (db, if id != "" && !readFails && Exists(db, id) then Some(id) else None)
    case Refresh(token, readFails, remove, accountFails) =>
      if readFails || !Redeemable(db, token, now) then (db, None)
      else
        var a := db.tokens[token].account;
        (if remove == Lost then db else WithoutToken(db, token), if !accountFails && Exists(db, a) then Some(a) else None)
    case Delete(id, mark, purge) =>
      var marked := if mark == Lost then db else WithoutAccount(db, id);
      (if mark != Done || purge == Lost then marked else WithoutTokensOf(marked, id), None)
  }

  // The session's refresh token is stored, unless another row has it.
  predicate Stores(db: Db, c: Call) {
    var (admitted, who) := Admit(db, c.now, c.op);
    who.Some? && c.store != Lost && c.issued !in admitted.tokens
  }

  function Step(db: Db, c: Call): Db {
    var (admitted, who) := Admit(db, c.now, c.op);
    if Stores(db, c) then admitted.(tokens := admitted.tokens[c.issued := TokenRow(who.value, c.now + TOKEN_LIFETIME)])
    else admitted
  }

  function Answer(db: Db, c: Call): Outcome {
    if c.op.Delete? then (if c.op.mark == Done then Removed else Refused)
    else if Stores(db, c) && c.store == Done then Granted(Admit(db, c.now, c.op).1.value, c.issued)
    else Refused
  }

  function Run(db: Db, cs: seq<Call>): Db {
    if cs == [] then db else Step(Run(db, cs[..|cs| - 1]), cs[|cs| - 1])
  }

  // ---- a deleted account ----

  predicate IsDeleted(db: Db, a: AccountId) {
    a in db.accounts && db.accounts[a].deleted
  }

  lemma AdmitKeepsDeleted(db: Db, now: int, op: Op, a: AccountId)
    requires IsDeleted(db, a)
    ensures IsDeleted(Admit(db, now, op).0, a)
  {
    hide Redeemable, Exists, Bytes;
  }

  lemma StepKeepsDeleted(db: Db, c: Call, a: AccountId)
    requires IsDeleted(db, a)
    ensures IsDeleted(Step(db, c), a)
  {
    AdmitKeepsDeleted(db, c.now, c.op, a);
    hide Admit;
  }

  lemma DeleteMarks(db: Db, c: Call)
    requires c.op.Delete? && c.op.mark != Lost && c.op.id in db.accounts
    ensures IsDeleted(Step(db, c), c.op.id)
  {
  }

  lemma {:induction false} DeletedForGood(db: Db, cs: seq<Call>, i: nat, j: nat)
    requires i < j <= |cs| && cs[i].op.Delete? && cs[i].op.mark != Lost && cs[i].op.id in Run(db, cs[..i]).accounts
    ensures IsDeleted(Run(db, cs[..j]), cs[i].op.id)
  {
    hide Step, IsDeleted;
    assert cs[..j][..j - 1] == cs[..j - 1];
    if j == i + 1 {
      DeleteMarks(Run(db, cs[..i]), cs[i]);
    } else {
      DeletedForGood(db, cs, i, j - 1);
      StepKeepsDeleted(Run(db, cs[..j - 1]), cs[j - 1], cs[i].op.id);
    }
  }

  predicate IsRegistration(op: Op) {
    op.Register? || op.RegisterAnonymous?
  }

  lemma DeletedIsRefused(db: Db, c: Call, a: AccountId)
    requires IsDeleted(db, a) && !IsRegistration(c.op)
    ensures Answer(db, c).Granted? ==> Answer(db, c).account != a
  {
  }

  /** Once an existing account is deleted, no refresh and no sign-in for it succeeds, in any run and with any
      database call failing, also where purging its tokens failed or its device registers again. */
  lemma NoWayBackIn(db: Db, cs: seq<Call>, i: nat, j: nat)
    requires i < j < |cs| && cs[i].op.Delete? && !IsRegistration(cs[j].op)
    requires Answer(Run(db, cs[..i]), cs[i]) == Removed && cs[i].op.id in Run(db, cs[..i]).accounts
    ensures var seen := Answer(Run(db, cs[..j]), cs[j]); seen.Granted? ==> seen.account != cs[i].op.id
  {
    hide Run, Step, IsDeleted, Stores;
    DeletedForGood(db, cs, i, j);
    DeletedIsRefused(Run(db, cs[..j]), cs[j], cs[i].op.id);
  }

  /** Registering a deleted account's device again does hand out a session for the deleted account, with a
      refresh token that cannot be redeemed. */
  lemma DeletedDeviceGetsDeadToken(db: Db, now: int, device: string, publicKey: string, newId: AccountId, issued: Token,
                                   later: Call)
    requires device != "" && publicKey != "" && device in db.devices && IsDeleted(db, db.devices[device])
    requires issued !in db.tokens && later.op.Refresh? && later.op.token == issued
    ensures var c := Call(now, Register(device, publicKey, newId, Done), issued, Done);
      && Answer(db, c) == Granted(db.devices[device], issued)
      && Answer(Step(db, c), later) == Refused
  {
  }

  /** It takes three calls from empty tables: register, delete, register the device again. */
  lemma DeletedDeviceIsReached(device: string, publicKey: string, id: AccountId, other: AccountId, first: Token,
                               second: Token)
    requires device != "" && publicKey != "" && first != second
    ensures var register := Call(0, Register(device, publicKey, id, Done), first, Done);
      var delete := Call(0, Delete(id, Done, Done), first, Done);
      var again := Call(0, Register(device, publicKey, other, Done), second, Done);
      Answer(Run(NO_ROWS, [register, delete]), again) == Granted(id, second)
  {
    var register := Call(0, Register(device, publicKey, id, Done), first, Done);
    var delete := Call(0, Delete(id, Done, Done), first, Done);
    assert [register, delete][..1] == [register] && [register][..0] == [];
    assert Run(NO_ROWS, []) == NO_ROWS;
    var one := Step(NO_ROWS, register);
    assert Run(NO_ROWS, [register]) == one;
    assert one.devices == map[device := id];
    assert Run(NO_ROWS, [register, delete]) == Step(one, delete);
  }

  // ---- what happens to one token ----

  // A refresh found the token.
  predicate Takes(db: Db, c: Call, token: Token) {
    c.op.Refresh? && c.op.token == token && !c.op.readFails && Redeemable(db, token, c.now)
  }

  predicate Keeps(db: Db, c: Call, token: Token) {
    Takes(db, c, token) && c.op.remove == Lost
  }

  function TokensLeft(db: Db, now: int, op: Op): map<Token, TokenRow> {
    if op.Refresh? && !op.readFails && Redeemable(db, op.token, now) && op.remove != Lost then db.tokens - {op.token}
    else if op.Delete? && op.mark == Done && op.purge != Lost then WithoutTokensOf(db, op.id).tokens
    else db.tokens
  }

  // What a call does to the tokens before it may store one.
  lemma AdmittedTokens(db: Db, now: int, op: Op)
    ensures Admit(db, now, op).0.tokens == TokensLeft(db, now, op)
    ensures op.Delete? ==> Admit(db, now, op).1 == None
    ensures op.Refresh? && Admit(db, now, op).1.Some? ==>
      !op.readFails && Redeemable(db, op.token, now) && Admit(db, now, op).1.value == db.tokens[op.token].account
  {
    hide Redeemable, Exists, Bytes;
  }

  predicate Redeems(db: Db, c: Call, token: Token) {
    c.op.Refresh? && c.op.token == token && Answer(db, c).Granted?
  }

  predicate Purges(db: Db, c: Call, token: Token) {
    && c.op.Delete? && c.op.mark == Done && c.op.purge != Lost
    && token in db.tokens && db.tokens[token].account == c.op.id
  }

  function One(b: bool): nat {
    if b then 1 else 0
  }

  // How often a token was stored, found by a refresh, left in place by one, redeemed and purged.
  datatype Tally = Tally(stored: nat, taken: nat, kept: nat, redeemed: nat, purged: nat)

  function TallyOf(db: Db, cs: seq<Call>, token: Token): Tally {
    if cs == [] then Tally(0, 0, 0, 0, 0)
    else
      var n := |cs| - 1;
      var so, at := TallyOf(db, cs[..n], token), Run(db, cs[..n]);
      Tally(so.stored + One(Stores(at, cs[n]) && cs[n].issued == token), so.taken + One(Takes(at, cs[n], token)),
            so.kept + One(Keeps(at, cs[n], token)), so.redeemed + One(Redeems(at, cs[n], token)),
            so.purged + One(Purges(at, cs[n], token)))
  }

  lemma StepConserves(db: Db, c: Call, token: Token)
    ensures One(token in db.tokens) + One(Stores(db, c) && c.issued == token) + One(Keeps(db, c, token)) ==
      One(token in Step(db, c).tokens) + One(Takes(db, c, token)) + One(Purges(db, c, token))
    ensures Redeems(db, c, token) ==> Takes(db, c, token)
  {
    AdmittedTokens(db, c.now, c.op);
    hide Admit;
  }

  /** With any failures: a token is found by refreshes as often as it was there, was stored and was left in
      place by a failed removal, less the times it was purged or is still there. */
  lemma {:induction false} TokensAreConserved(db: Db, cs: seq<Call>, token: Token)
    ensures var t := TallyOf(db, cs, token);
      One(token in db.tokens) + t.stored + t.kept == One(token in Run(db, cs).tokens) + t.taken + t.purged
    ensures TallyOf(db, cs, token).redeemed <= TallyOf(db, cs, token).taken
  {
    hide Step, Stores, Takes, Keeps, Redeems, Purges;
    if cs == [] {
    } else {
      var n := |cs| - 1;
      TokensAreConserved(db, cs[..n], token);
      StepConserves(Run(db, cs[..n]), cs[n], token);
    }
  }

  // Drawn tokens are new: none is in the table and none is drawn twice.
  ghost predicate Fresh(db: Db, cs: seq<Call>) {
    && (forall i :: 0 <= i < |cs| ==> cs[i].issued !in db.tokens)
    && (forall i, j :: 0 <= i < j < |cs| ==> cs[i].issued != cs[j].issued)
  }

  lemma {:induction false} StoredAtMostOnce(db: Db, cs: seq<Call>, token: Token)
    requires Fresh(db, cs)
    ensures TallyOf(db, cs, token).stored <= 1
    ensures TallyOf(db, cs, token).stored == 1 ==> token !in db.tokens && exists i :: 0 <= i < |cs| && cs[i].issued == token
  {
    hide Run, Stores, Takes, Keeps, Redeems, Purges;
    if cs == [] {
    } else {
      StoredAtMostOnce(db, cs[..|cs| - 1], token);
    }
  }

  predicate RemovesToken(c: Call) {
    c.op.Refresh? ==> c.op.remove != Lost
  }

  lemma {:induction false} NothingKept(db: Db, cs: seq<Call>, token: Token)
    requires forall i :: 0 <= i < |cs| ==> RemovesToken(cs[i])
    ensures TallyOf(db, cs, token).kept == 0
  {
    hide Run, Stores, Redeems, Purges;
    if cs == [] {
    } else {
      assert RemovesToken(cs[|cs| - 1]);
      NothingKept(db, cs[..|cs| - 1], token);
    }
  }

  /** So a token is redeemed at most once more than removing it failed, and at most once without such a
      failure. */
  lemma RedeemedAtMostOnce(db: Db, cs: seq<Call>, token: Token)
    requires Fresh(db, cs)
    ensures var t := TallyOf(db, cs, token); t.redeemed <= 1 + t.kept
    ensures (forall i :: 0 <= i < |cs| ==> RemovesToken(cs[i])) ==> TallyOf(db, cs, token).redeemed <= 1
  {
    hide TallyOf, Run;
    TokensAreConserved(db, cs, token);
    StoredAtMostOnce(db, cs, token);
    if forall i :: 0 <= i < |cs| ==> RemovesToken(cs[i]) { NothingKept(db, cs, token); }
  }

  // ---- rotation ----

  // A refresh with a token of the set stores a new one.
  predicate Rotates(db: Db, c: Call, family: set<Token>) {
    c.op.Refresh? && c.op.token in family && Takes(db, c, c.op.token) && Stores(db, c)
  }

  // A token and everything it was rotated into.
  function Lineage(db: Db, cs: seq<Call>, token: Token): set<Token> {
    if cs == [] then {token}
    else
      var n := |cs| - 1;
      var so, at := Lineage(db, cs[..n], token), Run(db, cs[..n]);
      if Rotates(at, cs[n], so) then so + {cs[n].issued} else so
  }

  predicate Spares(db: Db, c: Call, family: set<Token>) {
    c.op.Refresh? && c.op.token in family && Keeps(db, c, c.op.token)
  }

  // How often a refresh left a token of the lineage in place.
  function Spared(db: Db, cs: seq<Call>, token: Token): nat {
    if cs == [] then 0
    else
      var n := |cs| - 1;
      Spared(db, cs[..n], token) + One(Spares(Run(db, cs[..n]), cs[n], Lineage(db, cs[..n], token)))
  }

  // The tokens of the set that are stored, expired ones included.
  function Live(db: Db, family: set<Token>): set<Token> {
    set t | t in family && t in db.tokens
  }

  ghost predicate AllOf(db: Db, family: set<Token>, a: AccountId) {
    forall t :: t in family && t in db.tokens ==> db.tokens[t].account == a
  }

  lemma {:induction false} LineageIsDrawn(db: Db, cs: seq<Call>, token: Token)
    ensures token in Lineage(db, cs, token)
    ensures forall t :: t in Lineage(db, cs, token) ==> t == token || exists i :: 0 <= i < |cs| && cs[i].issued == t
  {
    hide Run, Rotates;
    if cs == [] {
    } else {
      var n := |cs| - 1;
      LineageIsDrawn(db, cs[..n], token);
      forall t | t in Lineage(db, cs[..n], token) && t != token
        ensures exists i :: 0 <= i < |cs| && cs[i].issued == t
      {
        var i :| 0 <= i < n && cs[..n][i].issued == t;
        assert cs[i].issued == t;
      }
    }
  }

  lemma StepRotates(db: Db, c: Call, family: set<Token>, a: AccountId)
    requires AllOf(db, family, a) && c.issued !in family && Rotates(db, c, family)
    ensures AllOf(Step(db, c), family + {c.issued}, a)
    ensures Live(Step(db, c), family + {c.issued}) ==
      (if Spares(db, c, family) then Live(db, family) else Live(db, family) - {c.op.token}) + {c.issued}
    ensures c.op.token in Live(db, family) && Step(db, c).tokens[c.issued].expiresAt == c.now + TOKEN_LIFETIME
  {
    AdmittedTokens(db, c.now, c.op);
    hide Admit;
  }

  lemma StepDoesNotRotate(db: Db, c: Call, family: set<Token>, a: AccountId)
    requires AllOf(db, family, a) && c.issued !in family && !Rotates(db, c, family)
    ensures AllOf(Step(db, c), family, a)
    ensures Live(Step(db, c), family) <= Live(db, family)
    ensures forall t :: t in Live(Step(db, c), family) ==> Step(db, c).tokens[t] == db.tokens[t]
  {
    AdmittedTokens(db, c.now, c.op);
    hide Admit;
  }

  lemma OneLive(db: Db, token: Token)
    requires token in db.tokens
    ensures AllOf(db, {token}, db.tokens[token].account) && Live(db, {token}) == {token}
  {
  }

  lemma StepLive(db: Db, c: Call, family: set<Token>, a: AccountId)
    requires AllOf(db, family, a) && c.issued !in family
    ensures var next := if Rotates(db, c, family) then family + {c.issued} else family;
      && AllOf(Step(db, c), next, a)
      && |Live(Step(db, c), next)| <= |Live(db, family)| + One(Spares(db, c, family))
  {
    hide Step, AllOf, Rotates, Spares;
    if Rotates(db, c, family) {
      StepRotates(db, c, family, a);
    } else {
      StepDoesNotRotate(db, c, family, a);
      SubsetSize(Live(Step(db, c), family), Live(db, family));
    }
  }

  /** With any failures: everything a token is rotated into belongs to its account, and at any time no more
      than one of these tokens is live, beside one for each time a rotation failed to remove the old token. */
  lemma {:induction false} RotationKeepsOneLive(db: Db, cs: seq<Call>, token: Token)
    requires token in db.tokens && Fresh(db, cs)
    ensures AllOf(Run(db, cs), Lineage(db, cs, token), db.tokens[token].account)
    ensures |Live(Run(db, cs), Lineage(db, cs, token))| <= 1 + Spared(db, cs, token)
  {
    hide Step, Live, AllOf, Rotates, Spares;
    if cs == [] {
      OneLive(db, token);
    } else {
      var n := |cs| - 1;
      var at, so, c := Run(db, cs[..n]), Lineage(db, cs[..n], token), cs[n];
      RotationKeepsOneLive(db, cs[..n], token);
      LineageIsDrawn(db, cs[..n], token);
      assert c.issued !in so;
      StepLive(at, c, so, db.tokens[token].account);
    }
  }

  predicate NoFailure(c: Call) {
    c.store == Done &&
    match c.op
    case Refresh(_, readFails, remove, accountFails) => !readFails && remove == Done && !accountFails
    case Delete(_, mark, purge) => mark == Done && purge == Done
    case _ => true
  }

  lemma StepDraws(db: Db, c: Call, t: Token)
    requires t in Step(db, c).tokens
    ensures t in db.tokens || t == c.issued
  {
    AdmittedTokens(db, c.now, c.op);
    hide Admit;
  }

  lemma {:induction false} TokensAreDrawn(db: Db, cs: seq<Call>, t: Token)
    requires t in Run(db, cs).tokens
    ensures t in db.tokens || exists i :: 0 <= i < |cs| && cs[i].issued == t
  {
    if cs == [] {
    } else {
      var n := |cs| - 1;
      StepDraws(Run(db, cs[..n]), cs[n], t);
      hide Step, Run;
      if t != cs[n].issued {
        TokensAreDrawn(db, cs[..n], t);
        if t !in db.tokens {
          var i :| 0 <= i < n && cs[..n][i].issued == t;
          assert cs[i].issued == t;
        }
      }
    }
  }

  // Without failures a redeemable token of an existing account is rotated, and a deletion shows.
  lemma AdmittedAccount(db: Db, c: Call, a: AccountId)
    requires NoFailure(c) && Exists(db, a) && Exists(Step(db, c), a)
    ensures c.op.Delete? ==> c.op.id != a
    ensures c.op.Refresh? && Redeemable(db, c.op.token, c.now) && db.tokens[c.op.token].account == a ==>
      Admit(db, c.now, c.op).1 == Some(a)
  {
    if c.op.Delete? && c.op.id == a { DeleteMarks(db, c); }
    hide Step;
  }

  lemma StepLeavesLive(db: Db, c: Call, family: set<Token>, a: AccountId)
    requires NoFailure(c) && AllOf(db, family, a) && c.issued !in family && c.issued !in db.tokens && !Rotates(db, c, family)
    requires Exists(db, a) && Exists(Step(db, c), a)
    ensures Live(Step(db, c), family) == Live(db, family)
  {
    AdmittedTokens(db, c.now, c.op);
    AdmittedAccount(db, c, a);
    hide Admit;
  }

  lemma StepKeepsLive(db: Db, c: Call, family: set<Token>, a: AccountId)
    requires NoFailure(c) && AllOf(db, family, a) && c.issued !in family && c.issued !in db.tokens
    requires |Live(db, family)| == 1 && Exists(db, a) && Exists(Step(db, c), a)
    ensures |Live(Step(db, c), if Rotates(db, c, family) then family + {c.issued} else family)| == 1
  {
    hide Step, Stores;
    if Rotates(db, c, family) {
      StepRotates(db, c, family, a);
    } else {
      StepLeavesLive(db, c, family, a);
    }
  }

  lemma StepKeepsAccounts(db: Db, c: Call, a: AccountId)
    requires a in db.accounts
    ensures a in Step(db, c).accounts
  {
    hide Redeemable, Exists, Bytes;
  }

  lemma {:induction false} AccountsStay(db: Db, cs: seq<Call>, a: AccountId)
    requires a in db.accounts
    ensures a in Run(db, cs).accounts
  {
    hide Step;
    if cs == [] {
    } else {
      AccountsStay(db, cs[..|cs| - 1], a);
      StepKeepsAccounts(Run(db, cs[..|cs| - 1]), cs[|cs| - 1], a);
    }
  }

  // When the token a lineage ends in runs out.
  function Expiry(db: Db, cs: seq<Call>, token: Token): int
    requires token in db.tokens
  {
    if cs == [] then db.tokens[token].expiresAt
    else
      var n := |cs| - 1;
      if Rotates(Run(db, cs[..n]), cs[n], Lineage(db, cs[..n], token)) then cs[n].now + TOKEN_LIFETIME
      else Expiry(db, cs[..n], token)
  }

  ghost predicate AllUntil(db: Db, family: set<Token>, expiry: int) {
    forall t :: t in Live(db, family) ==> db.tokens[t].expiresAt == expiry
  }

  lemma StepKeepsExpiry(db: Db, c: Call, family: set<Token>, a: AccountId, expiry: int)
    requires NoFailure(c) && AllOf(db, family, a) && c.issued !in family
    requires |Live(db, family)| == 1 && AllUntil(db, family, expiry)
    ensures AllUntil(Step(db, c), if Rotates(db, c, family) then family + {c.issued} else family,
                     if Rotates(db, c, family) then c.now + TOKEN_LIFETIME else expiry)
  {
    hide Step, Live, Stores;
    if Rotates(db, c, family) {
      StepRotates(db, c, family, a);
      SubsetSize({c.op.token}, Live(db, family));
      assert |Live(db, family) - {c.op.token}| == 0;
    } else {
      StepDoesNotRotate(db, c, family, a);
    }
  }

  /** Without failures the lineage of a token has exactly one live token for as long as its account is not
      deleted, however often it is rotated; it runs out 30 days after the last rotation. */
  lemma {:induction false} RotationKeepsExactlyOneLive(db: Db, cs: seq<Call>, token: Token)
    requires token in db.tokens && Fresh(db, cs) && forall i :: 0 <= i < |cs| ==> NoFailure(cs[i])
    requires Exists(Run(db, cs), db.tokens[token].account) && db.tokens[token].account in db.accounts
    ensures |Live(Run(db, cs), Lineage(db, cs, token))| == 1
    ensures AllUntil(Run(db, cs), Lineage(db, cs, token), Expiry(db, cs, token))
  {
    hide Step, Live, AllOf, Rotates, Spares;
    if cs == [] {
      OneLive(db, token);
    } else {
      var n := |cs| - 1;
      var at, so, c, a := Run(db, cs[..n]), Lineage(db, cs[..n], token), cs[n], db.tokens[token].account;
      AccountsStay(db, cs[..n], a);
      if IsDeleted(at, a) { StepKeepsDeleted(at, c, a); }
      RotationKeepsExactlyOneLive(db, cs[..n], token);
      RotationKeepsOneLive(db, cs[..n], token);
      LineageIsDrawn(db, cs[..n], token);
      if c.issued in at.tokens { TokensAreDrawn(db, cs[..n], c.issued); }
      StepKeepsLive(at, c, so, a);
      StepKeepsExpiry(at, c, so, a, Expiry(db, cs[..n], token));
    }
  }

  // Presenting the token, with no failure, opens a session of the account until it expires and never after.
  ghost predicate RefreshesUntil(db: Db, token: Token, a: AccountId, expiry: int) {
    forall now, issued :: issued !in db.tokens ==>
      Answer(db, Call(now, Refresh(token, false, Done, false), issued, Done)) ==
        if now < expiry then Granted(a, issued) else Refused
  }

  /** So a client that keeps the last token it was given can refresh for 30 days after its last refresh, and
      with no other token of the lineage. */
  lemma LastTokenRefreshes(db: Db, cs: seq<Call>, token: Token)
    requires token in db.tokens && Fresh(db, cs) && forall i :: 0 <= i < |cs| ==> NoFailure(cs[i])
    requires Exists(Run(db, cs), db.tokens[token].account) && db.tokens[token].account in db.accounts
    ensures exists last ::
      && Live(Run(db, cs), Lineage(db, cs, token)) == {last}
      && RefreshesUntil(Run(db, cs), last, db.tokens[token].account, Expiry(db, cs, token))
  {
    RotationKeepsOneLive(db, cs, token);
    RotationKeepsExactlyOneLive(db, cs, token);
    hide Run, Lineage, Expiry, Fresh, NoFailure;
    var at, so, a := Run(db, cs), Lineage(db, cs, token), db.tokens[token].account;
    var last :| last in Live(at, so);
    SubsetSize({last}, Live(at, so));
    assert |Live(at, so) - {last}| == 0;
    assert Live(at, so) == {last};
    assert RefreshesUntil(at, last, a, Expiry(db, cs, token));
  }
}
