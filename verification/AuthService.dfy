/** auth-svc's methods over its tables, each proved to be the state machine's step. */
module AuthService {
  import opened Text
  import opened AuthTokens

  class Service {
    var accounts: map<AccountId, Account>
    var devices: map<string, AccountId>
    var emails: map<string, AccountId>
    var tokens: map<Token, TokenRow>

    constructor ()
      ensures Valid() && Abs() == NO_ROWS
    {
      accounts, devices, emails, tokens := map[], map[], map[], map[];
    }

    ghost predicate Valid()
      reads this
    {
      Indexed(Tables(accounts, devices, emails, tokens))
    }

    ghost function Abs(): Db
      requires Valid()
      reads this
    {
      Tables(accounts, devices, emails, tokens)
    }

    // The account's row is written, or the one of its device is found.
    method InsertAccount(device: string, publicKey: string, newId: AccountId, create: Write)
      returns (who: Option<AccountId>)
      requires Valid()
      modifies this
      ensures Valid() && (Abs(), who) == CreateAccount(old(Abs()), device, publicKey, newId, create)
    {
      if create == Lost {
        return None;
      }
      var a := newId;
      if device in devices {
        a := devices[device];
        accounts := accounts[a := accounts[a].(publicKey := publicKey)];
      } else if newId in accounts {
        return None;
      } else {
        accounts := accounts[newId := Account(publicKey, None, false)];
        devices := devices[device := newId];
      }
      who := if create == Done then Some(a) else None;
    }

    method StoreRefreshToken(now: int, a: AccountId, issued: Token, store: Write) returns (ok: bool)
      requires Valid()
      modifies this`tokens
      ensures Valid() && ok == (store == Done && issued !in old(tokens))
      ensures tokens == if store == Lost || issued in old(tokens) then old(tokens)
                        else old(tokens)[issued := TokenRow(a, now + TOKEN_LIFETIME)]
    {
      if store == Lost || issued in tokens {
        return false;
      }
      tokens := tokens[issued := TokenRow(a, now + TOKEN_LIFETIME)];
      ok := store == Done;
    }

    method Register(now: int, device: string, publicKey: string, newId: AccountId, create: Write, issued: Token,
                    store: Write)
      returns (r: Outcome)
      requires Valid()
      modifies this
      ensures Valid()
      ensures var c := Call(now, Op.Register(device, publicKey, newId, create), issued, store);
        Abs() == Step(old(Abs()), c) && r == Answer(old(Abs()), c)
    {
      if device == "" || publicKey == "" {
        return Refused;
      }
      var who := InsertAccount(device, publicKey, newId, create);
      if who.None? {
        return Refused;
      }
      var ok := StoreRefreshToken(now, who.value, issued, store);
      r := if ok then Granted(who.value, issued) else Refused;
    }

    method RegisterAnonymous(now: int, device: string, newId: AccountId, create: Write, issued: Token, store: Write)
      returns (r: Outcome)
      requires Valid()
      modifies this
      ensures Valid()
      ensures var c := Call(now, Op.RegisterAnonymous(device, newId, create), issued, store);
        Abs() == Step(old(Abs()), c) && r == Answer(old(Abs()), c)
    {
      var who := InsertAccount(device, "", newId, create);
      if who.None? {
        return Refused;
      }
      var ok := StoreRefreshToken(now, who.value, issued, store);
      r := if ok then Granted(who.value, issued) else Refused;
    }

    method RegisterWithEmail(now: int, email: string, password: string, passwordHash: string, device: string,
                             newId: AccountId, create: Write, issued: Token, store: Write) returns (r: Outcome)
      requires Valid()
      modifies this
      ensures Valid()
      ensures var c := Call(now, Op.RegisterWithEmail(email, password, passwordHash, device, newId, create), issued, store);
        Abs() == Step(old(Abs()), c) && r == Answer(old(Abs()), c)
    {
      if email == "" || password == "" {
        return Refused;
      }
      if Bytes(password) < MIN_PASSWORD {
        return Refused;
      }
      if create == Lost || email in emails || device in devices || newId in accounts {
        return Refused;
      }
      accounts := accounts[newId := Account("", Some(passwordHash), false)];
      devices := devices[device := newId];
      emails := emails[email := newId];
      if create != Done {
        return Refused;
      }
      var ok := StoreRefreshToken(now, newId, issued, store);
      r := if ok then Granted(newId, issued) else Refused;
    }

    method SignInWithEmail(now: int, email: string, password: string, matches: bool, readFails: bool, issued: Token,
                           store: Write) returns (r: Outcome)
      requires Valid()
      modifies this`tokens
      ensures Valid()
      ensures var c := Call(now, Op.SignInWithEmail(email, password, matches, readFails), issued, store);
        Abs() == Step(old(Abs()), c) && r == Answer(old(Abs()), c)
    {
      if email == "" || password == "" {
        return Refused;
      }
      if readFails || email !in emails || accounts[emails[email]].deleted {
        return Refused;
      }
      var a := emails[email];
      if accounts[a].password == None || !matches {
        return Refused;
      }
      var ok := StoreRefreshToken(now, a, issued, store);
      r := if ok then Granted(a, issued) else Refused;
    }

    method SignInWithAccountID(now: int, id: AccountId, readFails: bool, issued: Token, store: Write) returns (r: Outcome)
      requires Valid()
      modifies this`tokens
      ensures Valid()
      ensures var c := Call(now, Op.SignInWithAccountID(id, readFails), issued, store);
        Abs() == Step(old(Abs()), c) && r == Answer(old(Abs()), c)
    {
      if id == "" {
        return Refused;
      }
      if readFails || id !in accounts || accounts[id].deleted {
        return Refused;
      }
      var ok := StoreRefreshToken(now, id, issued, store);
      r := if ok then Granted(id, issued) else Refused;
    }

    method RefreshToken(now: int, token: Token, readFails: bool, remove: Write, accountFails: bool, issued: Token,
                        store: Write) returns (r: Outcome)
      requires Valid()
      modifies this`tokens
      ensures Valid()
      ensures var c := Call(now, Refresh(token, readFails, remove, accountFails), issued, store);
        Abs() == Step(old(Abs()), c) && r == Answer(old(Abs()), c)
    {
      if readFails || token !in tokens || tokens[token].expiresAt <= now {
        return Refused;
      }
      var a := tokens[token].account;
      // A failed removal is only logged.
      if remove != Lost {
        tokens := tokens - {token};
      }
      if accountFails || a !in accounts || accounts[a].deleted {
        return Refused;
      }
      var ok := StoreRefreshToken(now, a, issued, store);
      r := if ok then Granted(a, issued) else Refused;
    }

    method DeleteAccount(now: int, id: AccountId, mark: Write, purge: Write) returns (r: Outcome)
      requires Valid()
      modifies this
      ensures Valid()
      ensures forall issued, store :: var c := Call(now, Delete(id, mark, purge), issued, store);
        Abs() == Step(old(Abs()), c) && r == Answer(old(Abs()), c)
    {
      if mark != Lost && id in accounts {
        accounts := accounts[id := accounts[id].(deleted := true)];
      }
      if mark != Done {
        return Refused;
      }
      // A failed purge is only logged.
      if purge != Lost {
        tokens := map t | t in tokens && tokens[t].account != id :: tokens[t];
      }
      r := Removed;
    }
  }
}
