/** What each call of auth-svc answers and stores, for all tables, and signing in after a registration. */
module AuthOutcomes {
  import opened Text
  import opened AuthTokens

  predicate IsActive(db: Db, a: AccountId) {
    a in db.accounts && !db.accounts[a].deleted
  }

  // The session's token row, for thirty days, unless its write is lost or the token is taken.
  function WithSession(tokens: map<Token, TokenRow>, c: Call, a: AccountId): map<Token, TokenRow> {
    if c.store == Lost || c.issued in tokens then tokens else tokens[c.issued := TokenRow(a, c.now + 2592000)]
  }

  // The session is granted if its token is new and its row reported as stored.
  function Session(tokens: map<Token, TokenRow>, c: Call, a: AccountId): Outcome {
    if c.store == Done && c.issued !in tokens then Granted(a, c.issued) else Refused
  }

  /** An e-mail sign-in opens a session of the address's account exactly when both texts are given, the account exists,
      is not deleted and has a password, and the password given matches it; it changes nothing else. */
  lemma EmailSignIn(db: Db, c: Call)
    requires c.op.SignInWithEmail?
    ensures var known := c.op.email != "" && c.op.password != "" && !c.op.readFails && c.op.email in db.emails;
      var admitted := known && IsActive(db, db.emails[c.op.email]) && c.op.matches &&
        db.accounts[db.emails[c.op.email]].password.Some?;
      && Answer(db, c) == (if admitted then Session(db.tokens, c, db.emails[c.op.email]) else Refused)
      && Step(db, c) == if admitted then db.(tokens := WithSession(db.tokens, c, db.emails[c.op.email])) else db
  {
  }

  /** A sign-in by account identifier needs an account with that identifier that is not deleted, and nothing else. */
  lemma IdentifierSignIn(db: Db, c: Call)
    requires c.op.SignInWithAccountID?
    ensures var admitted := c.op.id != "" && !c.op.readFails && IsActive(db, c.op.id);
      && Answer(db, c) == (if admitted then Session(db.tokens, c, c.op.id) else Refused)
      && Step(db, c) == if admitted then db.(tokens := WithSession(db.tokens, c, c.op.id)) else db
  {
  }

  /** A refresh takes the token it finds unexpired, even if it then fails, and opens a session if the token's account is
      not deleted. */
  lemma TokenRefresh(db: Db, c: Call)
    requires c.op.Refresh?
    ensures var found := !c.op.readFails && c.op.token in db.tokens && c.now < db.tokens[c.op.token].expiresAt;
      var left := if found && c.op.remove != Lost then db.tokens - {c.op.token} else db.tokens;
      var admitted := found && !c.op.accountFails && IsActive(db, db.tokens[c.op.token].account);
      && Answer(db, c) == (if admitted then Session(left, c, db.tokens[c.op.token].account) else Refused)
      && Step(db, c) ==
           db.(tokens := if admitted then WithSession(left, c, db.tokens[c.op.token].account) else left)
  {
  }

  // The device's account, or a new one with an identifier that is free.
  function DeviceAccount(db: Db, device: string, newId: AccountId): Option<AccountId> {
    if device in db.devices then Some(db.devices[device]) else if newId in db.accounts then None else Some(newId)
  }

  // The key of a known device's account is replaced; a new account has no password.
  function WithDevice(db: Db, device: string, publicKey: string, newId: AccountId): Db {
    if device in db.devices then
      var a := db.devices[device];
      db.(accounts := db.accounts[a := Account(publicKey, db.accounts[a].password, db.accounts[a].deleted)])
    else if newId in db.accounts then db
    else
      db.(accounts := db.accounts[newId := Account(publicKey, None, false)], devices := db.devices[device := newId])
  }

  // What both registrations of a device do once their texts are accepted.
  predicate RegistersDevice(db: Db, c: Call, device: string, publicKey: string, newId: AccountId, create: Write) {
    var written := if create == Lost then db else WithDevice(db, device, publicKey, newId);
    var who := DeviceAccount(db, device, newId);
    if create == Done && who.Some? then
      && Answer(db, c) == Session(db.tokens, c, who.value)
      && Step(db, c) == written.(tokens := WithSession(db.tokens, c, who.value))
    else Answer(db, c) == Refused && Step(db, c) == written
  }

  /** A registration opens a session of its device's account, known or new, if the device and the key are given; an
      anonymous one draws its device and has no key. */
  lemma DeviceRegistration(db: Db, c: Call)
    ensures c.op.Register? && c.op.device != "" && c.op.publicKey != "" ==>
      RegistersDevice(db, c, c.op.device, c.op.publicKey, c.op.newId, c.op.create)
    ensures c.op.Register? && (c.op.device == "" || c.op.publicKey == "") ==> Answer(db, c) == Refused && Step(db, c) == db
    ensures c.op.RegisterAnonymous? ==> RegistersDevice(db, c, c.op.device, "", c.op.newId, c.op.create)
  {
    hide Redeemable, Exists, Bytes;
  }

  /** A registration with an e-mail address opens a session of the new account exactly when both texts are given, the
      password has six bytes and the address, the device and the identifier are all new. */
  lemma EmailRegistration(db: Db, c: Call)
    requires c.op.RegisterWithEmail?
    ensures var accepted := c.op.email != "" && c.op.password != "" && Bytes(c.op.password) >= 6 &&
        c.op.email !in db.emails && c.op.device !in db.devices && c.op.newId !in db.accounts;
      var written := if !accepted || c.op.create == Lost then db
        else db.(accounts := db.accounts[c.op.newId := Account("", Some(c.op.passwordHash), false)],
                 devices := db.devices[c.op.device := c.op.newId], emails := db.emails[c.op.email := c.op.newId]);
      if accepted && c.op.create == Done then
        && Answer(db, c) == Session(db.tokens, c, c.op.newId)
        && Step(db, c) == written.(tokens := WithSession(db.tokens, c, c.op.newId))
      else Answer(db, c) == Refused && Step(db, c) == written
  {
    hide Redeemable, Exists, Bytes;
  }

  /** A deletion succeeds exactly when its mark is reported as written; then the account's tokens go too, unless that
      fails. */
  lemma AccountDeletion(db: Db, c: Call)
    requires c.op.Delete?
    ensures Answer(db, c) == if c.op.mark == Done then Removed else Refused
    ensures Step(db, c).accounts ==
      if c.op.mark == Lost || c.op.id !in db.accounts then db.accounts
      else db.accounts[c.op.id := Account(db.accounts[c.op.id].publicKey, db.accounts[c.op.id].password, true)]
    ensures forall t :: t in Step(db, c).tokens <==>
      t in db.tokens && (c.op.mark == Done && c.op.purge != Lost ==> db.tokens[t].account != c.op.id)
    ensures forall t :: t in Step(db, c).tokens ==> Step(db, c).tokens[t] == db.tokens[t]
    ensures Step(db, c).devices == db.devices && Step(db, c).emails == db.emails
  {
  }

  // ---- after a registration ----

  // The address belongs to an account with this password hash that is not deleted.
  predicate Enrolled(db: Db, email: string, a: AccountId, hash: string) {
    email in db.emails && db.emails[email] == a && IsActive(db, a) && db.accounts[a].password == Some(hash)
  }

  predicate Deletes(c: Call, a: AccountId) {
    c.op.Delete? && c.op.id == a && c.op.mark != Lost
  }

  lemma DeviceKeepsEnrolled(db: Db, c: Call, device: string, publicKey: string, newId: AccountId, create: Write,
                            email: string, a: AccountId, hash: string)
    requires Enrolled(db, email, a, hash)
    requires RegistersDevice(db, c, device, publicKey, newId, create)
    ensures Enrolled(Step(db, c), email, a, hash)
  {
    hide Step, Answer, WithSession, Session;
    assert Enrolled(WithDevice(db, device, publicKey, newId), email, a, hash);
    hide WithDevice;
  }

  lemma StepEnrolled(db: Db, c: Call, email: string, a: AccountId, hash: string)
    requires Enrolled(db, email, a, hash) && !Deletes(c, a)
    ensures Enrolled(Step(db, c), email, a, hash)
  {
    hide Step, Answer, Bytes, WithSession, Session, RegistersDevice;
    DeviceRegistration(db, c);
    match c.op
    case Register(device, publicKey, newId, create) =>
      if device != "" && publicKey != "" {
        DeviceKeepsEnrolled(db, c, device, publicKey, newId, create, email, a, hash);
      }
    case RegisterAnonymous(device, newId, create) =>
      DeviceKeepsEnrolled(db, c, device, "", newId, create, email, a, hash);
    case RegisterWithEmail(_, _, _, _, _, _) => EmailRegistration(db, c);
    case SignInWithEmail(_, _, _, _) => EmailSignIn(db, c);
    case SignInWithAccountID(_, _) => IdentifierSignIn(db, c);
    case Refresh(_, _, _, _) => TokenRefresh(db, c);
    case Delete(_, _, _) => AccountDeletion(db, c);
  }

  lemma {:induction false} RunEnrolled(db: Db, cs: seq<Call>, email: string, a: AccountId, hash: string)
    requires Enrolled(db, email, a, hash) && forall i :: 0 <= i < |cs| ==> !Deletes(cs[i], a)
    ensures Enrolled(Run(db, cs), email, a, hash)
  {
    hide Step, Enrolled, Deletes;
    if cs == [] {
    } else {
      RunEnrolled(db, cs[..|cs| - 1], email, a, hash);
      StepEnrolled(Run(db, cs[..|cs| - 1]), cs[|cs| - 1], email, a, hash);
    }
  }

  /** After a successful registration with an e-mail address, and whatever follows it but a deletion of that account:
      signing in with the address gives that account if the password matches, and is refused if it does not. */
  lemma RegisteredEmailSignsIn(db: Db, c: Call, cs: seq<Call>, s: Call)
    requires c.op.RegisterWithEmail? && Answer(db, c).Granted?
    requires forall i :: 0 <= i < |cs| ==> !Deletes(cs[i], c.op.newId)
    requires s.op.SignInWithEmail? && s.op.email == c.op.email && s.op.password != "" && !s.op.readFails
    ensures var at := Run(Step(db, c), cs);
      Answer(at, s) == if s.op.matches then Session(at.tokens, s, c.op.newId) else Refused
  {
    EmailRegistration(db, c);
    assert Enrolled(Step(db, c), c.op.email, c.op.newId, c.op.passwordHash);
    hide Step, Run, Answer;
    RunEnrolled(Step(db, c), cs, c.op.email, c.op.newId, c.op.passwordHash);
    EmailSignIn(Run(Step(db, c), cs), s);
  }
}
