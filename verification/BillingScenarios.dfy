/** Short runs from the empty ledger in which the properties with conditions fail: the excluded states occur. */
module BillingScenarios {
  import opened Text
  import opened Entitlement
  import opened TierSync
  import opened Ledger
  import opened PaidTime
  import opened Settlement

  // A first checkout whose payment is recorded.
  function Ordered(period: Period, methods: set<string>, a: Account, invoice: Invoice): Ledger {
    Ledger(period, methods, map[a := Subscription(Premium, Pending, "btcpay", 0, 0, false)],
           map[invoice := Payment(a, false)], [])
  }

  function Order(a: Account, invoice: Invoice): Call {
    Call(0, Checkout(a, "btcpay", Some(invoice), NoCheckoutFault))
  }

  lemma FirstOrder(period: Period, methods: set<string>, a: Account, invoice: Invoice)
    requires a != "" && "btcpay" in methods
    ensures Run(NewLedger(period, methods), [Order(a, invoice)]) == Ordered(period, methods, a, invoice)
  {
    RunNothing(NewLedger(period, methods));
    hide Run;
    RunThen(NewLedger(period, methods), [], Order(a, invoice));
    assert [] + [Order(a, invoice)] == [Order(a, invoice)];
  }

  function Settling(invoice: Invoice, fault: Fault): Call {
    Call(0, Settle(invoice, "", fault))
  }

  // The row after the first settlement.
  function FirstPeriod(period: Period): Subscription {
    Subscription(Premium, Active, PAYMENT_BTCPAY, 0, period, false)
  }

  lemma FirstSettlement(period: Period, methods: set<string>, a: Account, invoice: Invoice, fault: Fault)
    requires a != "" && invoice != "" && "btcpay" in methods
    requires fault != LoadPayment && fault != LoadSubscription && fault != UpdateLost
    ensures var cs := [Order(a, invoice), Settling(invoice, fault)];
      Run(NewLedger(period, methods), cs) ==
        Ledger(period, methods, map[a := FirstPeriod(period)],
               map[invoice := Payment(a, fault == NoFault || fault == CompleteUnreported)],
               if fault == NoFault then [Event(Renewed, a, "premium", Some(period))] else [])
  {
    FirstOrder(period, methods, a, invoice);
    hide Run;
    RunThen(NewLedger(period, methods), [Order(a, invoice)], Settling(invoice, fault));
    assert [Order(a, invoice)] + [Settling(invoice, fault)] == [Order(a, invoice), Settling(invoice, fault)];
  }

  /** The first settlement of an account, completed but reported as failed: the account pays, is entitled, and no
      event ever says so; its token decides what wg-manager takes it for. */
  lemma PaidButSilenced(period: Period, methods: set<string>, a: Account, invoice: Invoice, jwt: string)
    requires a != "" && invoice != "" && "btcpay" in methods
    ensures var l := Run(NewLedger(period, methods), [Order(a, invoice), Settling(invoice, CompleteUnreported)]);
      && Entitled(l, a, 0) && IsCompleted(l, invoice) && !Announced(l, a)
      && ResolveTier(CacheAfter(l.log), a, jwt) == NormalizeTier(jwt)
  {
    FirstSettlement(period, methods, a, invoice, CompleteUnreported);
    hide Run;
  }

  /** A lost completion: the retry extends again, and one invoice gives two periods. */
  lemma PaidOnceEntitledTwice(period: Period, methods: set<string>, a: Account, invoice: Invoice)
    requires a != "" && invoice != "" && "btcpay" in methods
    ensures var cs := [Order(a, invoice), Settling(invoice, CompleteLost), Settling(invoice, NoFault)];
      var l := Run(NewLedger(period, methods), cs);
      SettledFor(l, a) == {invoice} && Remaining(l, a, 0) == 2 * period
  {
    var l, first := NewLedger(period, methods), [Order(a, invoice), Settling(invoice, CompleteLost)];
    FirstSettlement(period, methods, a, invoice, CompleteLost);
    hide Run;
    RunThen(l, first, Settling(invoice, NoFault));
    assert first + [Settling(invoice, NoFault)] ==
      [Order(a, invoice), Settling(invoice, CompleteLost), Settling(invoice, NoFault)];
  }

  /** A cancel and a second checkout at once: the whole period that was paid for is thrown away. */
  lemma PaidAndForfeited(period: Period, methods: set<string>, a: Account, invoice: Invoice, second: Invoice)
    requires a != "" && invoice != "" && "btcpay" in methods
    ensures var cs := [Order(a, invoice), Settling(invoice, NoFault), Call(0, Cancel(a, Done)), Order(a, second)];
      var l := Run(NewLedger(period, methods), cs);
      && Forfeits(Run(NewLedger(period, methods), cs[..3]), cs[3], a)
      && SettledFor(l, a) == {invoice} && Remaining(l, a, 0) == 0
  {
    var l, first := NewLedger(period, methods), [Order(a, invoice), Settling(invoice, NoFault)];
    var cancel, again := Call(0, Cancel(a, Done)), Order(a, second);
    FirstSettlement(period, methods, a, invoice, NoFault);
    hide Run;
    RunThen(l, first, cancel);
    RunThen(l, first + [cancel], again);
    var cs := [Order(a, invoice), Settling(invoice, NoFault), cancel, again];
    assert cs[..3] == first + [cancel] && cs == first + [cancel] + [again];
  }
}
