/** Two services follow billing's events: wg-manager's tier cache and auth-svc's account rows. */
module TierSync {
  import opened Text
  import opened Entitlement

  datatype Subject = Renewed | Expired | Canceled

  datatype Event = Event(subject: Subject, account: string, tier: string, periodEnd: Option<int>)

  // What both handlers take from an event: the tier to store, if it stores one.
  function EventTier(e: Event): Option<string> {
    if e.account == "" then None
    else match e.subject
      case Renewed => Some(if e.tier == "" then TIER_PREMIUM else e.tier)
      case Expired => Some(TIER_FREE)
      case Canceled => None
  }

  // tier_sync.go: the cache stores the normalized tier.
  function CacheHandles(data: map<string, string>, e: Event): map<string, string> {
    match EventTier(e)
    case Some(tier) => data[e.account := NormalizeTier(tier)]
    case None => data
  }

  datatype AccountTier = AccountTier(tier: string, expiry: Option<int>)

  // The CHECK constraint of accounts.subscription_tier.
  predicate StorableTier(tier: string) {
    tier == TIER_FREE || tier == TIER_PREMIUM
  }

  // subscription_sync.go: the account row, if there is one, stores the tier as it came; the database
  // refuses any other spelling and the handler gives up.
  function AccountsHandle(accounts: map<string, AccountTier>, e: Event): map<string, AccountTier> {
    match EventTier(e)
    case Some(tier) =>
      if e.account in accounts && StorableTier(tier) then
        accounts[e.account := AccountTier(tier, if e.subject.Renewed? then e.periodEnd else None)]
      else accounts
    case None => accounts
  }

  // Events that neither handler acts on.
  predicate Ignored(e: Event) {
    e.account == "" || e.subject == Canceled
  }

  /** An expiry makes the cache entry free, whatever tier it carries; a renewal makes it premium if it carries no tier
      or spells that one, and free otherwise. */
  lemma CacheFollowsEvent(data: map<string, string>, e: Event)
    ensures Ignored(e) ==> CacheHandles(data, e) == data
    ensures !Ignored(e) && e.subject == Expired ==> CacheHandles(data, e) == data[e.account := "free"]
    ensures !Ignored(e) && e.subject == Renewed && (e.tier == "" || IsPremium(e.tier)) ==>
      CacheHandles(data, e) == data[e.account := "premium"]
    ensures !Ignored(e) && e.subject == Renewed && e.tier != "" && !IsPremium(e.tier) ==>
      CacheHandles(data, e) == data[e.account := "free"]
  {
    FreeIsNormal();
    PremiumIsNormal();
    PremiumSpellings(e.tier);
    hide NormalizeTier, IsPremium;
  }

  /** An expiry makes an account row free without a period; a renewal makes it premium until its period's end if it
      carries no tier or "premium", and free if it carries that; any other spelling is refused. */
  lemma RowFollowsEvent(accounts: map<string, AccountTier>, e: Event)
    ensures Ignored(e) || e.account !in accounts ==> AccountsHandle(accounts, e) == accounts
    ensures !Ignored(e) && e.account in accounts && e.subject == Expired ==>
      AccountsHandle(accounts, e) == accounts[e.account := AccountTier("free", None)]
    ensures !Ignored(e) && e.account in accounts && e.subject == Renewed && e.tier in {"", "premium"} ==>
      AccountsHandle(accounts, e) == accounts[e.account := AccountTier("premium", e.periodEnd)]
    ensures !Ignored(e) && e.account in accounts && e.subject == Renewed && e.tier == "free" ==>
      AccountsHandle(accounts, e) == accounts[e.account := AccountTier("free", e.periodEnd)]
    ensures e.subject == Renewed && e.tier !in {"", "premium", "free"} ==> AccountsHandle(accounts, e) == accounts
  {
  }

  function CacheAfter(log: seq<Event>): map<string, string> {
    if log == [] then map[] else CacheHandles(CacheAfter(log[..|log| - 1]), log[|log| - 1])
  }

  function AccountsAfter(accounts: map<string, AccountTier>, log: seq<Event>): map<string, AccountTier> {
    if log == [] then accounts else AccountsHandle(AccountsAfter(accounts, log[..|log| - 1]), log[|log| - 1])
  }

  // The last tier the log carries for an account.
  function LastTier(log: seq<Event>, a: string): Option<string> {
    if log == [] then None
    else
      var e := log[|log| - 1];
      if e.account == a && EventTier(e).Some? then EventTier(e) else LastTier(log[..|log| - 1], a)
  }

  // The last tier the log carries for an account that the database takes.
  function LastStorable(log: seq<Event>, a: string): Option<string> {
    if log == [] then None
    else
      var e := log[|log| - 1];
      if e.account == a && EventTier(e).Some? && StorableTier(EventTier(e).value) then EventTier(e)
      else LastStorable(log[..|log| - 1], a)
  }

  lemma {:induction false} CacheHasLastTier(log: seq<Event>, a: string)
    ensures a in CacheAfter(log) <==> LastTier(log, a).Some?
    ensures a in CacheAfter(log) ==> CacheAfter(log)[a] == NormalizeTier(LastTier(log, a).value)
  {
    hide NormalizeTier;
    if log == [] {
    } else {
      CacheHasLastTier(log[..|log| - 1], a);
    }
  }

  lemma {:induction false} AccountHasLastStorable(accounts: map<string, AccountTier>, log: seq<Event>, a: string)
    requires a in accounts
    ensures a in AccountsAfter(accounts, log)
    ensures AccountsAfter(accounts, log)[a].tier == LastStorable(log, a).GetOr(accounts[a].tier)
  {
    hide NormalizeTier;
    if log == [] {
    } else {
      AccountHasLastStorable(accounts, log[..|log| - 1], a);
    }
  }

  /** After every event log, handled in publication order by both, the cache entry of an account with a
      renewed or expired event is the normalized tier of its account row if and only if the last tier sent
      for it is normally the last storable one, or the row's first one without any. */
  lemma ConsumersAgreeIff(accounts: map<string, AccountTier>, log: seq<Event>, a: string)
    requires a in accounts && LastTier(log, a).Some?
    ensures a in CacheAfter(log) && a in AccountsAfter(accounts, log)
    ensures CacheAfter(log)[a] == NormalizeTier(AccountsAfter(accounts, log)[a].tier)
      <==> NormalizeTier(LastTier(log, a).value) == NormalizeTier(LastStorable(log, a).GetOr(accounts[a].tier))
  {
    hide NormalizeTier;
    CacheHasLastTier(log, a);
    AccountHasLastStorable(accounts, log, a);
  }

  lemma {:induction false} LastIsStorable(log: seq<Event>, a: string)
    requires LastTier(log, a).Some? && StorableTier(LastTier(log, a).value)
    ensures LastStorable(log, a) == LastTier(log, a)
  {
    if log == [] {
    } else {
      var e := log[|log| - 1];
      if !(e.account == a && EventTier(e).Some?) { LastIsStorable(log[..|log| - 1], a); }
    }
  }

  /** So they agree whenever the account's last tier event is well spelled, whatever came before. */
  lemma ConsumersAgree(accounts: map<string, AccountTier>, log: seq<Event>, a: string)
    requires a in accounts && LastTier(log, a).Some? && StorableTier(LastTier(log, a).value)
    ensures a in CacheAfter(log) && a in AccountsAfter(accounts, log)
    ensures CacheAfter(log)[a] == NormalizeTier(AccountsAfter(accounts, log)[a].tier)
    ensures AccountsAfter(accounts, log)[a].tier == LastTier(log, a).value
  {
    hide NormalizeTier;
    ConsumersAgreeIff(accounts, log, a);
    AccountHasLastStorable(accounts, log, a);
    LastIsStorable(log, a);
  }

  lemma CapitalIsNormalized()
    ensures NormalizeTier("Premium") == TIER_PREMIUM
  {
    hide NormalizeTier;
    assert ToLower("Premium") == TIER_PREMIUM;
    TrimmedTier("Premium");
  }

  /** One misspelled renewal of a free account is enough to part them. */
  lemma MisspelledRenewalParts(accounts: map<string, AccountTier>, a: string)
    requires a != "" && a in accounts && accounts[a].tier == TIER_FREE
    ensures var log := [Event(Renewed, a, "Premium", None)];
      && a in CacheAfter(log) && a in AccountsAfter(accounts, log)
      && CacheAfter(log)[a] == TIER_PREMIUM && AccountsAfter(accounts, log)[a].tier == TIER_FREE
  {
    var log := [Event(Renewed, a, "Premium", None)];
    CapitalIsNormalized();
    hide NormalizeTier;
    assert log[..0] == [];
    assert LastTier(log, a) == Some("Premium");
    assert LastStorable(log, a) == LastStorable([], a);
    CacheHasLastTier(log, a);
    AccountHasLastStorable(accounts, log, a);
  }

  class TierCache {
    var data: map<string, string>

    constructor ()
      ensures data == CacheAfter([])
    {
      data := map[];
    }

    method Lookup(account: string) returns (tier: Option<string>)
      ensures tier == if account in data then Some(data[account]) else None
    {
      if account in data {
        tier := Some(data[account]);
      } else {
        tier := None;
      }
    }

    method Set(account: string, tier: string)
      modifies this
      ensures data == old(data)[account := NormalizeTier(tier)]
    {
      data := data[account := NormalizeTier(tier)];
    }

    method Handle(e: Event)
      modifies this
      ensures data == CacheHandles(old(data), e)
    {
      if e.account == "" {
        return;
      }
      var tier: string;
      match e.subject {
        case Renewed =>
          tier := e.tier;
          if tier == "" {
            tier := TIER_PREMIUM;
          }
        case Expired =>
          tier := TIER_FREE;
        case Canceled =>
          return;
      }
      Set(e.account, tier);
    }
  }

  class AccountRows {
    var rows: map<string, AccountTier>

    constructor (accounts: map<string, AccountTier>)
      ensures rows == accounts
    {
      rows := accounts;
    }

    method UpdateAccountTier(account: string, tier: string, expiry: Option<int>) returns (ok: bool)
      modifies this
      ensures ok == StorableTier(tier) || account !in old(rows)
      ensures rows == if account in old(rows) && StorableTier(tier)
                      then old(rows)[account := AccountTier(tier, expiry)] else old(rows)
    {
      if account !in rows {
        return true;
      }
      ok := StorableTier(tier);
      if ok {
        rows := rows[account := AccountTier(tier, expiry)];
      }
    }

    method Handle(e: Event)
      modifies this
      ensures rows == AccountsHandle(old(rows), e)
    {
      if e.account == "" {
        return;
      }
      var tier := e.tier;
      var expiry := None;
      match e.subject {
        case Renewed =>
          if tier == "" {
            tier := TIER_PREMIUM;
          }
          if e.periodEnd.Some? {
            expiry := e.periodEnd;
          }
        case Expired =>
          tier := TIER_FREE;
          expiry := None;
        case Canceled =>
          return;
      }
      var _ := UpdateAccountTier(e.account, tier, expiry);
    }
  }

  // resolveTier: the cached tier wins over the token's.
  function ResolveTier(cached: map<string, string>, account: string, jwtTier: string): string {
    if account in cached then cached[account] else NormalizeTier(jwtTier)
  }

  /** Once an account has had a renewed or expired event, its token's tier no longer matters: the last tier
      sent for it does, and that is the account row's under the condition above. */
  lemma ResolveIgnoresToken(accounts: map<string, AccountTier>, log: seq<Event>, a: string, jwt: string)
    requires a in accounts && LastTier(log, a).Some?
    ensures ResolveTier(CacheAfter(log), a, jwt) == NormalizeTier(LastTier(log, a).value)
    ensures a in AccountsAfter(accounts, log)
    ensures ResolveTier(CacheAfter(log), a, jwt) == NormalizeTier(AccountsAfter(accounts, log)[a].tier)
      <==> NormalizeTier(LastTier(log, a).value) == NormalizeTier(LastStorable(log, a).GetOr(accounts[a].tier))
  {
    hide NormalizeTier;
    CacheHasLastTier(log, a);
    ConsumersAgreeIff(accounts, log, a);
  }
}
