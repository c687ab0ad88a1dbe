/** What each call of billing-svc does to the rows it finds, for every ledger, and what that means end to end. */
module BillingOutcomes {
  import opened Text
  import opened Entitlement
  import opened TierSync
  import opened Ledger
  import opened PaidTime
  import opened Settlement

  // A premium period that has not ended.
  predicate Running(l: Ledger, a: Account, now: int) {
    a in l.subs && l.subs[a].tier == Premium && l.subs[a].status == Active && now < l.subs[a].end
  }

  // A premium period that has.
  predicate Overdue(l: Ledger, a: Account, now: int) {
    a in l.subs && l.subs[a].tier == Premium && l.subs[a].status == Active && l.subs[a].end < now
  }

  // A free row for a hundred years of 365 days.
  function FreeRow(now: int): Subscription {
    Subscription(Free, Active, "none", now, now + 3153600000, false)
  }

  // ---- status and expiry ----

  // The overdue row is made free as the write goes, and told only if it reports success.
  predicate ExpiresTo(l: Ledger, a: Account, now: int, write: Write, next: Ledger) {
    match write
    case Lost => next == l
    case Unreported => next == l.(subs := l.subs[a := FreeRow(now)])
    case Done => next == l.(subs := l.subs[a := FreeRow(now)], log := l.log + [Event(Expired, a, "free", None)])
  }

  /** A sweep makes exactly the overdue rows free. */
  lemma SweepExpires(l: Ledger, a: Account, now: int, write: Write)
    ensures var next := Step(l, Call(now, Sweep(a, write)));
      if Overdue(l, a, now) then ExpiresTo(l, a, now, write, next) else next == l
  {
  }

  /** A status request does the same, and gives an account without a row a free one; it reports premium exactly while a
      premium period runs. */
  lemma StatusTells(l: Ledger, a: Account, now: int, expiry: Write)
    ensures var c := Call(now, Op.GetStatus(a, expiry)); var next := Step(l, c);
      && Answer(l, c) == Some(StatusSeen(Running(l, a, now)))
      && (a !in l.subs ==> next == l.(subs := l.subs[a := FreeRow(now)]))
      && (a in l.subs && Overdue(l, a, now) ==> ExpiresTo(l, a, now, expiry, next))
      && (a in l.subs && !Overdue(l, a, now) ==> next == l)
  {
  }

  // ---- checkout and cancellation ----

  // What stands in the way of a checkout: no account, or a premium period that runs and was not cancelled.
  predicate Barred(l: Ledger, a: Account, now: int) {
    a == "" || (Running(l, a, now) && !l.subs[a].cancel)
  }

  // A free row keeps its tier and period until the payment settles; any other becomes a pending premium row.
  function RowOnOrder(l: Ledger, a: Account, payment: string, now: int): Subscription {
    if a in l.subs && l.subs[a].tier == Free then l.subs[a].(status := Active, payment := payment, cancel := false)
    else Subscription(Premium, Pending, payment, now, now, false)
  }

  /** A checkout succeeds exactly when nothing bars it, the database takes its payment method, the provider issues an
      invoice and no call fails; it then has written the row and recorded the payment, without any event. */
  lemma CheckoutTells(l: Ledger, a: Account, payment: string, issued: Option<Invoice>, flaw: CheckoutFault, now: int)
    ensures var c := Call(now, Checkout(a, payment, issued, flaw)); var next := Step(l, c);
      var accepted := !Barred(l, a, now) && payment in l.methods && issued.Some? && flaw == NoCheckoutFault;
      && Answer(l, c) == Some(CheckoutSeen(accepted))
      && (accepted ==> next.subs == l.subs[a := RowOnOrder(l, a, payment, now)])
      && (accepted && issued.value !in l.payments ==> next.payments == l.payments[issued.value := Payment(a, false)])
      && (accepted && issued.value in l.payments ==> next.payments == l.payments)
      && next.log == l.log && next.period == l.period && next.methods == l.methods
  {
  }

  /** A barred checkout, and one that fails before its row is written, changes nothing; a later failure leaves the row,
      and the payment if its record was written. */
  lemma FailedCheckoutLeaves(l: Ledger, a: Account, payment: string, issued: Option<Invoice>, flaw: CheckoutFault, now: int)
    ensures var next := Step(l, Call(now, Checkout(a, payment, issued, flaw)));
      && (Barred(l, a, now) || payment !in l.methods || flaw in {ReadLost, UpsertLost} ==> next == l)
      && (!Barred(l, a, now) && payment in l.methods && flaw !in {ReadLost, UpsertLost} ==>
            next.subs == l.subs[a := RowOnOrder(l, a, payment, now)])
      && (issued.None? || flaw in {UpsertUnreported, ReloadLost, RecordLost} ==> next.payments == l.payments)
      && (!Barred(l, a, now) && payment in l.methods && issued.Some? && flaw == RecordUnreported ==>
            issued.value in next.payments)
  {
  }

  /** So a Monero checkout succeeds under the deployment's payment methods, and fails under the service's own. */
  lemma MoneroCheckout(l: Ledger, a: Account, invoice: Invoice, now: int)
    requires !Barred(l, a, now)
    ensures var c := Call(now, Checkout(a, "btcpay_xmr", Some(invoice), NoCheckoutFault));
      && (l.methods == DEPLOYED_METHODS ==> Answer(l, c) == Some(CheckoutSeen(true)) && invoice in Step(l, c).payments)
      && (l.methods == EMBEDDED_METHODS ==> Answer(l, c) == Some(CheckoutSeen(false)) && Step(l, c) == l)
  {
    CheckoutTells(l, a, "btcpay_xmr", Some(invoice), NoCheckoutFault, now);
    FailedCheckoutLeaves(l, a, "btcpay_xmr", Some(invoice), NoCheckoutFault, now);
    hide Step, Answer, Barred;
    assert "btcpay_xmr" in DEPLOYED_METHODS && "btcpay_xmr" !in EMBEDDED_METHODS;
  }

  /** A cancellation marks the row and leaves its period alone; it tells the tier if it reports success. */
  lemma CancelTells(l: Ledger, a: Account, write: Write, now: int)
    ensures var c := Call(now, Cancel(a, write)); var next := Step(l, c);
      && (a !in l.subs || write == Lost ==> next == l)
      && (a in l.subs && write != Lost ==> next.subs == l.subs[a := l.subs[a].(cancel := true)])
      && (a in l.subs && write == Done ==>
            next.log == l.log + [Event(Canceled, a, if l.subs[a].tier == Premium then "premium" else "free", None)])
      && (write == Unreported ==> next.log == l.log)
      && next.payments == l.payments
      && Answer(l, c) == Some(if write == Done then CancelSeen(a in l.subs) else CancelFailed)
  {
  }

  // ---- settlement ----

  function Payer(l: Ledger, invoice: Invoice, hint: Account): Account
    requires invoice in l.payments
  {
    if l.payments[invoice].account == "" then hint else l.payments[invoice].account
  }

  // The invoice belongs to a recorded payment that is not completed, of an account that has a row.
  predicate Payable(l: Ledger, invoice: Invoice, hint: Account) {
    && invoice != "" && invoice in l.payments && !l.payments[invoice].completed
    && Payer(l, invoice, hint) != "" && Payer(l, invoice, hint) in l.subs
  }

  // The period paid for starts at the end of a running one, or now.
  function PaidRow(l: Ledger, a: Account, now: int): Subscription {
    var start := if Running(l, a, now) then l.subs[a].end else now;
    Subscription(Premium, Active, "btcpay", start, start + l.period, false)
  }

  /** A delivery without failures of such an invoice settles it: the payment is completed, the account gets exactly one
      more period, and the event says until when. */
  lemma PayableInvoiceSettles(l: Ledger, invoice: Invoice, hint: Account, now: int)
    requires Payable(l, invoice, hint)
    ensures var c := Call(now, Settle(invoice, hint, NoFault)); var next := Step(l, c);
      var a := Payer(l, invoice, hint); var row := PaidRow(l, a, now);
      && Answer(l, c) == Some(Settled(row.end))
      && next.subs == l.subs[a := row]
      && next.payments == l.payments[invoice := Payment(l.payments[invoice].account, true)]
      && next.log == l.log + [Event(Renewed, a, "premium", Some(row.end))]
      && Remaining(next, a, now) == Remaining(l, a, now) + l.period
  {
  }

  /** What a failure leaves behind: the row from a lost completion on, the completed payment from an unreported one on,
      and never an event. */
  lemma FailedSettlementLeaves(l: Ledger, invoice: Invoice, hint: Account, fault: Fault, now: int)
    requires Payable(l, invoice, hint) && fault != NoFault
    ensures var c := Call(now, Settle(invoice, hint, fault)); var next := Step(l, c);
      var a := Payer(l, invoice, hint);
      && Answer(l, c) == Some(SettleFailed)
      && next.log == l.log
      && next.subs == (if fault in {LoadPayment, LoadSubscription, UpdateLost} then l.subs
                       else l.subs[a := PaidRow(l, a, now)])
      && next.payments == (if fault != CompleteUnreported then l.payments
                           else l.payments[invoice := Payment(l.payments[invoice].account, true)])
  {
  }

  /** Every other delivery changes nothing: an invoice already settled is acknowledged, an unknown one and one without
      an account are refused. */
  lemma OtherDeliveries(l: Ledger, invoice: Invoice, hint: Account, fault: Fault, now: int)
    requires !Payable(l, invoice, hint)
    ensures var c := Call(now, Settle(invoice, hint, fault)); var seen := Answer(l, c);
      && Step(l, c) == l
      && (invoice == "" ==> seen == Some(SettleRefused))
      && (invoice != "" && fault == LoadPayment ==> seen == Some(SettleFailed))
      && (invoice != "" && fault != LoadPayment && invoice !in l.payments ==> seen == Some(SettleRefused))
      && (invoice != "" && fault != LoadPayment && invoice in l.payments ==>
            if l.payments[invoice].completed then seen == Some(AlreadySettled)
            else if Payer(l, invoice, hint) == "" then seen == Some(SettleRefused)
            else seen == Some(SettleFailed))
  {
  }

  // ---- over runs ----

  // Every recorded payment is of an account with a row.
  predicate Backed(l: Ledger) {
    forall i :: i in l.payments ==> l.payments[i].account != "" && l.payments[i].account in l.subs
  }

  lemma StepBacked(l: Ledger, c: Call)
    requires Backed(l)
    ensures Backed(Step(l, c))
  {
    match c.op
    case GetStatus(a, expiry) => StatusTells(l, a, c.now, expiry);
    case Checkout(a, payment, issued, flaw) =>
    case Cancel(a, write) => CancelTells(l, a, write, c.now);
    case Settle(invoice, hint, fault) =>
    case Sweep(a, write) => SweepExpires(l, a, c.now, write);
  }

  lemma {:induction false} RunBacked(l: Ledger, cs: seq<Call>)
    requires Backed(l)
    ensures Backed(Run(l, cs))
  {
    hide Step, Backed;
    if cs == [] {
    } else {
      RunBacked(l, cs[..|cs| - 1]);
      StepBacked(Run(l, cs[..|cs| - 1]), cs[|cs| - 1]);
    }
  }

  /** After every run from the empty ledger, with any failures: a recorded invoice that is not completed settles at its
      first delivery without failures, whoever the delivery says paid. */
  lemma RecordedInvoiceSettles(period: Period, methods: set<string>, cs: seq<Call>, invoice: Invoice, hint: Account, now: int)
    requires var l := Run(NewLedger(period, methods), cs);
      invoice != "" && invoice in l.payments && !l.payments[invoice].completed
    ensures var l := Run(NewLedger(period, methods), cs); var c := Call(now, Settle(invoice, hint, NoFault));
      var a := l.payments[invoice].account;
      && a in l.subs && Answer(l, c) == Some(Settled(PaidRow(l, a, now).end))
      && Step(l, c).payments == l.payments[invoice := Payment(a, true)]
      && Remaining(Step(l, c), a, now) == Remaining(l, a, now) + l.period
  {
    hide Run, Step, Answer, Remaining, PaidRow;
    var l := Run(NewLedger(period, methods), cs);
    RunBacked(NewLedger(period, methods), cs);
    PayableInvoiceSettles(l, invoice, hint, now);
  }

  // A delivery of the invoice without failures, when its payment was recorded.
  predicate Delivered(l: Ledger, cs: seq<Call>, invoice: Invoice, i: nat)
    requires i < |cs|
  {
    && cs[i].op.Settle? && cs[i].op.invoice == invoice && cs[i].op.fault == NoFault
    && invoice in Run(l, cs[..i]).payments
  }

  lemma {:induction false} CompletedStays(l: Ledger, cs: seq<Call>, invoice: Invoice, i: nat)
    requires i <= |cs| && IsCompleted(Run(l, cs[..i]), invoice)
    ensures IsCompleted(Run(l, cs), invoice)
  {
    hide Step, IsCompleted, ExtendsFor, Completes;
    if i == |cs| {
      assert cs[..i] == cs;
    } else {
      var n := |cs| - 1;
      assert cs[..n][..i] == cs[..i];
      CompletedStays(l, cs[..n], invoice, i);
      StepCompletes(Run(l, cs[..n]), cs[n], invoice);
    }
  }

  /** Once one delivery without failures was made for a recorded invoice, in any run from the empty ledger, it is
      completed, and it has extended its account's period at least once, and exactly once if and only if no extension
      of it was interrupted. */
  lemma DeliveredInvoiceIsCredited(period: Period, methods: set<string>, cs: seq<Call>, invoice: Invoice, i: nat)
    requires i < |cs| && invoice != "" && Delivered(NewLedger(period, methods), cs, invoice, i)
    ensures var l := NewLedger(period, methods);
      && IsCompleted(Run(l, cs), invoice)
      && Extensions(l, cs, invoice) >= 1
      && (Extensions(l, cs, invoice) == 1 <==> NeverInterrupted(l, cs, invoice))
  {
    hide Step, Answer, Extensions, Interruptions, NeverInterrupted, Remaining, PaidRow;
    var l := NewLedger(period, methods);
    var at, c := Run(l, cs[..i]), cs[i];
    RunBacked(l, cs[..i]);
    assert IsCompleted(Step(at, c), invoice) by {
      if at.payments[invoice].completed {
        StepCompletes(at, c, invoice);
      } else {
        PayableInvoiceSettles(at, invoice, c.op.hint, c.now);
        assert c == Call(c.now, Settle(invoice, c.op.hint, NoFault));
      }
    }
    assert cs[..i + 1][..i] == cs[..i];
    assert Run(l, cs[..i + 1]) == Step(at, c);
    CompletedStays(l, cs, invoice, i + 1);
    hide Run;
    SettlementSurvivesFailures(l, cs, invoice);
    NoInterruption(l, cs, invoice);
  }

  // ---- end to end ----

  lemma LastEvent(log: seq<Event>, e: Event)
    ensures (log + [e])[..|log|] == log && (log + [e])[|log|] == e
  {
  }

  lemma BothHandled(accounts: map<string, AccountTier>, log: seq<Event>, e: Event)
    ensures CacheAfter(log + [e]) == CacheHandles(CacheAfter(log), e)
    ensures AccountsAfter(accounts, log + [e]) == AccountsHandle(AccountsAfter(accounts, log), e)
  {
    LastEvent(log, e);
  }

  lemma {:induction false} AccountsKeep(accounts: map<string, AccountTier>, log: seq<Event>)
    ensures AccountsAfter(accounts, log).Keys == accounts.Keys
  {
    if log == [] {
    } else {
      AccountsKeep(accounts, log[..|log| - 1]);
    }
  }

  /** Once an overdue period's expiry was written and reported, and both consumers handled the events, the account is
      free in its row and in wg-manager's resolved tier, whatever came before and whatever its token says. */
  lemma ExpiryReachesConsumers(l: Ledger, a: Account, c: Call, accounts: map<string, AccountTier>, jwt: string)
    requires a != "" && a in accounts && Overdue(l, a, c.now)
    requires c.op == Sweep(a, Done) || c.op == Op.GetStatus(a, Done)
    ensures var log := Step(l, c).log;
      && a in AccountsAfter(accounts, log) && AccountsAfter(accounts, log)[a] == AccountTier("free", None)
      && ResolveTier(CacheAfter(log), a, jwt) == "free"
  {
    hide NormalizeTier, CacheAfter, AccountsAfter, CacheHandles, AccountsHandle;
    var e := Event(Expired, a, "free", None);
    if c.op.Sweep? { SweepExpires(l, a, c.now, Done); } else { StatusTells(l, a, c.now, Done); }
    hide Step;
    AccountsKeep(accounts, l.log);
    BothHandled(accounts, l.log, e);
    CacheFollowsEvent(CacheAfter(l.log), e);
    RowFollowsEvent(AccountsAfter(accounts, l.log), e);
  }

  /** Once an invoice was settled without failures, and both consumers handled the events, its account is premium in
      both until the end of the period it paid for. */
  lemma SettlementReachesConsumers(l: Ledger, invoice: Invoice, hint: Account, now: int,
                                   accounts: map<string, AccountTier>, jwt: string)
    requires Payable(l, invoice, hint) && Payer(l, invoice, hint) in accounts
    ensures var log := Step(l, Call(now, Settle(invoice, hint, NoFault))).log; var a := Payer(l, invoice, hint);
      && a in AccountsAfter(accounts, log)
      && AccountsAfter(accounts, log)[a] == AccountTier("premium", Some(PaidRow(l, a, now).end))
      && ResolveTier(CacheAfter(log), a, jwt) == "premium"
  {
    hide NormalizeTier, IsPremium, CacheAfter, AccountsAfter, CacheHandles, AccountsHandle, PaidRow, Remaining;
    var a := Payer(l, invoice, hint);
    var e := Event(Renewed, a, "premium", Some(PaidRow(l, a, now).end));
    PayableInvoiceSettles(l, invoice, hint, now);
    hide Step;
    AccountsKeep(accounts, l.log);
    BothHandled(accounts, l.log, e);
    PremiumIsNormal();
    PremiumSpellings("premium");
    CacheFollowsEvent(CacheAfter(l.log), e);
    RowFollowsEvent(AccountsAfter(accounts, l.log), e);
  }
}
