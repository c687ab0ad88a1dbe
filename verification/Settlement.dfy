/** Settlement survives failures and repeated deliveries, and its events keep both tier consumers right. */
module Settlement {
  import opened Text
  import opened Entitlement
  import opened TierSync
  import opened Ledger

  predicate IsCompleted(l: Ledger, invoice: Invoice) {
    invoice in l.payments && l.payments[invoice].completed
  }

  // The call writes this invoice's extension to the subscription.
  predicate ExtendsFor(l: Ledger, op: Op, invoice: Invoice) {
    Extends(l, op) && op.invoice == invoice
  }

  // How often an invoice extended its subscription, and how often that was not followed by its completion.
  function Extensions(l: Ledger, cs: seq<Call>, invoice: Invoice): nat {
    if cs == [] then 0
    else
      var n := |cs| - 1;
      Extensions(l, cs[..n], invoice) + (if ExtendsFor(Run(l, cs[..n]), cs[n].op, invoice) then 1 else 0)
  }

  function Interruptions(l: Ledger, cs: seq<Call>, invoice: Invoice): nat {
    if cs == [] then 0
    else
      var n := |cs| - 1;
      Interruptions(l, cs[..n], invoice) +
        (if ExtendsFor(Run(l, cs[..n]), cs[n].op, invoice) && !Completes(Run(l, cs[..n]), cs[n].op) then 1 else 0)
  }

  lemma StepCompletes(l: Ledger, c: Call, invoice: Invoice)
    ensures IsCompleted(Step(l, c), invoice) <==>
      IsCompleted(l, invoice) || (ExtendsFor(l, c.op, invoice) && Completes(l, c.op))
    ensures IsCompleted(l, invoice) ==> !ExtendsFor(l, c.op, invoice)
  {
  }

  /** With any database call allowed to fail, any number of deliveries and anything in between: an invoice
      extends its subscription once for each time its completion was interrupted, and once more exactly
      when it ends up completed; so a completed payment has always extended its subscription. */
  lemma {:induction false} SettlementSurvivesFailures(l: Ledger, cs: seq<Call>, invoice: Invoice)
    requires !IsCompleted(l, invoice)
    ensures Extensions(l, cs, invoice) ==
      Interruptions(l, cs, invoice) + (if IsCompleted(Run(l, cs), invoice) then 1 else 0)
  {
    hide Step, Completes, ExtendsFor, IsCompleted;
    if cs == [] {
    } else {
      var n := |cs| - 1;
      SettlementSurvivesFailures(l, cs[..n], invoice);
      StepCompletes(Run(l, cs[..n]), cs[n], invoice);
    }
  }

  // Every settlement that writes this invoice's extension also completes its payment.
  predicate NeverInterrupted(l: Ledger, cs: seq<Call>, invoice: Invoice) {
    forall i :: 0 <= i < |cs| && ExtendsFor(Run(l, cs[..i]), cs[i].op, invoice) ==> Completes(Run(l, cs[..i]), cs[i].op)
  }

  lemma {:induction false} NoInterruption(l: Ledger, cs: seq<Call>, invoice: Invoice)
    ensures Interruptions(l, cs, invoice) == 0 <==> NeverInterrupted(l, cs, invoice)
  {
    hide Run, ExtendsFor, Completes;
    if cs == [] {
    } else {
      var n := |cs| - 1;
      NoInterruption(l, cs[..n], invoice);
      assert forall i :: 0 <= i < n ==> cs[..n][..i] == cs[..i];
    }
  }

  lemma {:induction false} NeverExtends(l: Ledger, cs: seq<Call>, invoice: Invoice)
    ensures Extensions(l, cs, invoice) == 0 <==>
      forall i :: 0 <= i < |cs| ==> !ExtendsFor(Run(l, cs[..i]), cs[i].op, invoice)
  {
    hide Run, ExtendsFor;
    if cs == [] {
    } else {
      var n := |cs| - 1;
      NeverExtends(l, cs[..n], invoice);
      assert forall i :: 0 <= i < n ==> cs[..n][..i] == cs[..i];
    }
  }

  /** Over arbitrarily many deliveries an invoice extends exactly as often as it is settled, once or never, if
      and only if no extension of it is interrupted; other failures do no harm. */
  lemma SettlesExactlyOnce(l: Ledger, cs: seq<Call>, invoice: Invoice)
    requires !IsCompleted(l, invoice)
    ensures Extensions(l, cs, invoice) == (if IsCompleted(Run(l, cs), invoice) then 1 else 0)
      <==> NeverInterrupted(l, cs, invoice)
    ensures Extensions(l, cs, invoice) == 0 <==>
      forall i :: 0 <= i < |cs| ==> !ExtendsFor(Run(l, cs[..i]), cs[i].op, invoice)
  {
    hide Extensions, Interruptions, NeverInterrupted, Run;
    SettlementSurvivesFailures(l, cs, invoice);
    NoInterruption(l, cs, invoice);
    NeverExtends(l, cs, invoice);
  }

  // ---- what the events tell ----

  // If the account's row is active premium, the last tier event sent for it says so.
  ghost predicate Announced(l: Ledger, a: Account) {
    a in l.subs && Paying(l.subs[a]) ==> LastTier(l.log, a) == Some(TIER_PREMIUM)
  }

  // A settlement that writes the account's premium row and then fails, while premium was not the last tier sent.
  ghost predicate Silences(l: Ledger, op: Op, a: Account) {
    && op.Settle? && Extends(l, op) && op.fault != NoFault
    && PayerOf(l, op.invoice, op.hint) == a && LastTier(l.log, a) != Some(TIER_PREMIUM)
  }

  lemma LogGrows(log: seq<Event>, e: Event, a: Account)
    ensures LastTier(log + [e], a) == if e.account == a && EventTier(e).Some? then EventTier(e) else LastTier(log, a)
  {
    assert (log + [e])[..|log|] == log;
  }

  lemma SettleAnnounced(l: Ledger, c: Call, a: Account)
    requires Announced(l, a) && c.op.Settle?
    ensures Announced(Step(l, c), a) <==> !Silences(l, c.op, a)
  {
    hide LastTier;
    if Extends(l, c.op) {
      var payer := PayerOf(l, c.op.invoice, c.op.hint);
      LogGrows(l.log, Event(Renewed, payer, "premium", Some(RenewedEnd(l, payer, c.now))), a);
    }
  }

  lemma ExpiryAnnounced(l: Ledger, a: Account, b: Account, now: int, write: Write)
    requires Announced(l, a)
    ensures Announced(ExpireOne(l, b, now, write), a)
  {
    hide LastTier;
    LogGrows(l.log, Event(Expired, b, "free", None), a);
  }

  /** One call keeps an active premium row announced exactly when it is not a settlement that fails after
      writing it, of an account not yet known to be premium. */
  lemma StepAnnounced(l: Ledger, c: Call, a: Account)
    requires Announced(l, a)
    ensures Announced(Step(l, c), a) <==> !Silences(l, c.op, a)
  {
    hide LastTier;
    match c.op
    case GetStatus(b, expiry) =>
      var ensured := EnsureFree(l, b, c.now);
      if Due(ensured, b, c.now) { ExpiryAnnounced(ensured, a, b, c.now, expiry); }
    case Settle(_, _, _) => SettleAnnounced(l, c, a);
    case Sweep(b, write) =>
      if Due(l, b, c.now) { ExpiryAnnounced(l, a, b, c.now, write); }
    case Checkout(_, _, _, _) =>
    case Cancel(b, _) =>
      if b in l.subs { LogGrows(l.log, Event(Canceled, b, TierName(l.subs[b].tier), None), a); }
  }

  ghost predicate NeverSilenced(l: Ledger, cs: seq<Call>, a: Account) {
    forall i :: 0 <= i < |cs| ==> !Silences(Run(l, cs[..i]), cs[i].op, a)
  }

  lemma {:induction false} RunAnnounced(l: Ledger, cs: seq<Call>, a: Account)
    requires Announced(l, a) && NeverSilenced(l, cs, a)
    ensures Announced(Run(l, cs), a)
  {
    hide Announced, Silences, Step;
    if cs == [] {
    } else {
      var n := |cs| - 1;
      assert forall i :: 0 <= i < n ==> cs[..n][..i] == cs[..i];
      RunAnnounced(l, cs[..n], a);
      StepAnnounced(Run(l, cs[..n]), cs[n], a);
    }
  }

  // Every event with a tier carries one that the account database takes.
  ghost predicate Storable(log: seq<Event>) {
    forall e :: e in log && EventTier(e).Some? ==> StorableTier(EventTier(e).value)
  }

  lemma StepStorable(l: Ledger, c: Call)
    requires Storable(l.log)
    ensures Storable(Step(l, c).log)
  {
    hide Reaches, CheckoutAccepted, RenewedEnd;
  }

  lemma {:induction false} RunStorable(l: Ledger, cs: seq<Call>)
    requires Storable(l.log)
    ensures Storable(Run(l, cs).log)
  {
    hide Storable, Step;
    if cs == [] {
    } else {
      RunStorable(l, cs[..|cs| - 1]);
      StepStorable(Run(l, cs[..|cs| - 1]), cs[|cs| - 1]);
    }
  }

  lemma {:induction false} LastTierIsSent(log: seq<Event>, a: Account)
    ensures LastTier(log, a).Some? ==> exists e :: e in log && EventTier(e) == LastTier(log, a)
  {
    if log == [] {
    } else {
      LastTierIsSent(log[..|log| - 1], a);
    }
  }

  /** After any run of billing, with any failures, whose events both consumers handled: an account that an event
      was sent for is premium in its account row and in wg-manager's resolved tier exactly when the last of
      its tier events says premium, whatever the token says. */
  lemma PremiumEverywhereIff(period: Period, methods: set<string>, cs: seq<Call>, accounts: map<string, AccountTier>,
                             a: Account, jwt: string)
    requires a in accounts && LastTier(Run(NewLedger(period, methods), cs).log, a).Some?
    ensures var log := Run(NewLedger(period, methods), cs).log;
      && a in AccountsAfter(accounts, log)
      && (AccountsAfter(accounts, log)[a].tier == TIER_PREMIUM <==> LastTier(log, a) == Some(TIER_PREMIUM))
      && (ResolveTier(CacheAfter(log), a, jwt) == TIER_PREMIUM <==> LastTier(log, a) == Some(TIER_PREMIUM))
  {
    hide Step, Run, NormalizeTier;
    var l := NewLedger(period, methods);
    var log := Run(l, cs).log;
    RunStorable(l, cs);
    LastTierIsSent(log, a);
    ConsumersAgree(accounts, log, a);
    ResolveIgnoresToken(accounts, log, a, jwt);
    PremiumIsNormal();
    FreeIsNormal();
  }

  /** So an account whose billing row is active premium is premium in both, after every run in which no
      settlement silences it. */
  lemma ActivePremiumIsPremiumEverywhere(period: Period, methods: set<string>, cs: seq<Call>,
                                         accounts: map<string, AccountTier>, a: Account, jwt: string)
    requires NeverSilenced(NewLedger(period, methods), cs, a) && a in accounts
    requires var l := Run(NewLedger(period, methods), cs); a in l.subs && Paying(l.subs[a])
    ensures var log := Run(NewLedger(period, methods), cs).log;
      && a in AccountsAfter(accounts, log) && AccountsAfter(accounts, log)[a].tier == TIER_PREMIUM
      && ResolveTier(CacheAfter(log), a, jwt) == TIER_PREMIUM
  {
    hide Step, Run, NeverSilenced, NormalizeTier;
    RunAnnounced(NewLedger(period, methods), cs, a);
    PremiumEverywhereIff(period, methods, cs, accounts, a, jwt);
  }

  /** A settlement that silences leaves an active premium row whose last tier event, if any, says free; it
      sends nothing. */
  lemma SilencedPremium(l: Ledger, c: Call, a: Account)
    requires Silences(l, c.op, a)
    ensures a in Step(l, c).subs && Paying(Step(l, c).subs[a]) && c.now < Step(l, c).subs[a].end
    ensures Step(l, c).log == l.log && !Announced(Step(l, c), a)
  {
  }

  lemma {:induction false} CompletedForGood(l: Ledger, cs: seq<Call>, invoice: Invoice)
    requires IsCompleted(l, invoice)
    ensures IsCompleted(Run(l, cs), invoice)
  {
    hide Step, IsCompleted, Completes, ExtendsFor;
    if cs == [] {
    } else {
      CompletedForGood(l, cs[..|cs| - 1], invoice);
      StepCompletes(Run(l, cs[..|cs| - 1]), cs[|cs| - 1], invoice);
    }
  }

  /** If the completion was written but reported as failed, no retry makes up for it: whatever happens in
      between, every later delivery of the invoice finds it settled and changes and sends nothing. */
  lemma CompletedDeliveriesAreSilent(l: Ledger, c: Call, cs: seq<Call>, again: Call)
    requires c.op.Settle? && Completes(l, c.op) && again.op.Settle? && again.op.invoice == c.op.invoice
    ensures var at := Run(Step(l, c), cs);
      && Step(at, again) == at
      && Answer(at, again) == Some(if again.op.fault == LoadPayment then SettleFailed else AlreadySettled)
  {
    hide Run;
    StepCompletes(l, c, c.op.invoice);
    CompletedForGood(Step(l, c), cs, c.op.invoice);
  }
}
