/** billing-svc's methods over its tables, each proved to be the state machine's step. */
module BillingService {
  import opened Text
  import opened TierSync
  import opened Ledger
  import Books = Ledger

  // How the expiry of an account is written.
  function WriteOf(writes: map<Account, Write>, a: Account): Write {
    if a in writes then writes[a] else Done
  }

  predicate IsSweep(c: Call, now: int, writes: map<Account, Write>) {
    c.now == now && c.op.Sweep? && c.op.write == WriteOf(writes, c.op.account)
  }

  // The accounts in `rest` are still to be expired; the others that were due are, unless the write was lost.
  // Nothing else changed.
  ghost predicate Swept(was: Ledger, l: Ledger, now: int, writes: map<Account, Write>, rest: set<Account>) {
    && (forall a :: a in rest ==> Due(was, a, now))
    && (forall a :: Due(l, a, now) <==> Due(was, a, now) && (a in rest || WriteOf(writes, a) == Lost))
    && (forall a :: a in was.subs && (!Due(was, a, now) || a in rest) ==> a in l.subs && l.subs[a] == was.subs[a])
  }

  function ExpiredBy(was: Ledger, now: int, writes: map<Account, Write>, rest: set<Account>): set<Account> {
    set a | a in was.subs && Due(was, a, now) && a !in rest && WriteOf(writes, a) == Done
  }

  lemma DueIsListed(l: Ledger, now: int, writes: map<Account, Write>, due: set<Account>)
    requires forall a :: a in due <==> Due(l, a, now)
    ensures Swept(l, l, now, writes, due) && ExpiredBy(l, now, writes, due) == {}
  {
  }

  lemma OneSwept(was: Ledger, l: Ledger, now: int, writes: map<Account, Write>, rest: set<Account>, a: Account)
    requires Swept(was, l, now, writes, rest) && a in rest
    ensures var c := Call(now, Sweep(a, WriteOf(writes, a))); var next := Step(l, c);
      && next == Books.ExpireOne(l, a, now, WriteOf(writes, a)) && a in l.subs
      && Swept(was, next, now, writes, rest - {a})
    ensures ExpiredBy(was, now, writes, rest - {a}) ==
      ExpiredBy(was, now, writes, rest) + (if WriteOf(writes, a) == Done then {a} else {})
    ensures a !in ExpiredBy(was, now, writes, rest)
  {
    assert Due(l, a, now);
  }

  class Service {
    const period: Period
    const methods: set<string>
    var subs: map<Account, Subscription>
    var payments: map<Invoice, Payment>
    var published: seq<Event>

    constructor (days: int, methods: set<string>)
      ensures Abs() == NewLedger(PeriodDuration(days), methods)
      ensures period == if days <= 0 then 2592000 else days * 86400
    {
      period := PeriodDuration(days);
      this.methods := methods;
      subs, payments, published := map[], map[], [];
    }

    ghost function Abs(): Ledger
      reads this
    {
      Ledger(period, methods, subs, payments, published)
    }

    method EnsureFree(now: int, a: Account) returns (sub: Subscription)
      modifies this`subs
      ensures Abs() == Books.EnsureFree(old(Abs()), a, now)
      ensures a in subs && sub == subs[a]
    {
      if a in subs {
        return subs[a];
      }
      sub := Subscription(Free, Active, PAYMENT_NONE, now, now + CENTURY, false);
      subs := subs[a := sub];
    }

    // The caller's copy of the row is rewritten even where the update fails.
    method ExpireOne(now: int, a: Account, write: Write) returns (ok: bool, sub: Subscription)
      requires a in subs
      modifies this`subs, this`published
      ensures Abs() == Books.ExpireOne(old(Abs()), a, now, write)
      ensures ok == (write == Done) && sub == FreeSince(now)
    {
      sub := subs[a].(tier := Free, status := Active, payment := PAYMENT_NONE);
      sub := sub.(start := now, end := now + CENTURY, cancel := false);
      if write != Lost {
        subs := subs[a := sub];
      }
      ok := write == Done;
      if ok {
        published := published + [Event(Expired, a, "free", None)];
      }
    }

    // The premium flag of the status response; a failed inline expiry is only logged.
    method GetStatus(now: int, a: Account, expiry: Write) returns (isPremium: bool)
      modifies this`subs, this`published
      ensures Abs() == Step(old(Abs()), Call(now, Op.GetStatus(a, expiry)))
      ensures Answer(old(Abs()), Call(now, Op.GetStatus(a, expiry))) == Some(StatusSeen(isPremium))
    {
      var sub := EnsureFree(now, a);
      if sub.tier.Premium? && sub.status.Active? && now > sub.end {
        var ok;
        ok, sub := ExpireOne(now, a, expiry);
        if ok {
          sub := subs[a];
        }
      }
      isPremium := sub.tier.Premium? && sub.status.Active? && now < sub.end;
    }

    // `issued` is the invoice the provider created, if it did not fail.
    method CreatePremiumCheckout(now: int, a: Account, payment: string, issued: Option<Invoice>, flaw: CheckoutFault)
      returns (ok: bool)
      modifies this`subs, this`payments
      ensures Abs() == Step(old(Abs()), Call(now, Checkout(a, payment, issued, flaw)))
      ensures Answer(old(Abs()), Call(now, Checkout(a, payment, issued, flaw))) == Some(CheckoutSeen(ok))
    {
      hide Books.ExpireOne, Books.EnsureFree, Due, SettleStep;
      if a == "" || flaw == ReadLost {
        return false;
      }
      if a in subs && subs[a].tier.Premium? && subs[a].status.Active? && now < subs[a].end && !subs[a].cancel {
        return false;
      }
      var sub := Subscription(Premium, Pending, payment, now, now, false);
      if a in subs && subs[a].tier.Free? {
        sub := sub.(tier := Free, status := Active, start := subs[a].start, end := subs[a].end);
      }
      if payment !in methods || flaw == UpsertLost {
        return false;
      }
      subs := subs[a := sub];
      if flaw == UpsertUnreported || flaw == ReloadLost || issued.None? || flaw == RecordLost {
        return false;
      }
      if issued.value !in payments {
        payments := payments[issued.value := Payment(a, false)];
      }
      ok := flaw != RecordUnreported;
    }

    method CancelSubscription(now: int, a: Account, write: Write) returns (r: Seen)
      modifies this`subs, this`published
      ensures Abs() == Step(old(Abs()), Call(now, Cancel(a, write)))
      ensures Answer(old(Abs()), Call(now, Cancel(a, write))) == Some(r)
    {
      if write != Lost && a in subs {
        subs := subs[a := subs[a].(cancel := true)];
      }
      if write != Done {
        return CancelFailed;
      }
      if a in subs {
        published := published + [Event(Canceled, a, TierName(subs[a].tier), None)];
      }
      r := CancelSeen(a in subs);
    }

    // The subscription update of a settlement.
    method Renew(now: int, a: Account, writeFails: bool) returns (periodEnd: int)
      requires a in subs
      modifies this`subs
      ensures periodEnd == RenewedEnd(old(Abs()), a, now)
      ensures Abs() == if writeFails then old(Abs()) else Extended(old(Abs()), a, now)
    {
      var sub := subs[a];
      var periodStart := now;
      if sub.tier.Premium? && sub.status.Active? && sub.end > now {
        periodStart := sub.end;
      }
      periodEnd := periodStart + period;
      if !writeFails {
        subs := subs[a := Subscription(Premium, Active, PAYMENT_BTCPAY, periodStart, periodEnd, false)];
      }
    }

    method SettleInvoice(now: int, invoice: Invoice, hint: Account, fault: Fault) returns (r: Seen)
      modifies this`subs, this`payments, this`published
      ensures Abs() == Step(old(Abs()), Call(now, Settle(invoice, hint, fault)))
      ensures r == SettleSeen(old(Abs()), now, Settle(invoice, hint, fault))
    {
      hide Books.ExpireOne, Books.EnsureFree, CheckedOut, CheckoutAccepted, Due;
      ghost var was := Abs();
      if invoice == "" {
        return SettleRefused;
      }
      if fault == LoadPayment {
        return SettleFailed;
      }
      if invoice !in payments {
        return SettleRefused;
      }
      if payments[invoice].completed {
        return AlreadySettled;
      }
      var a := payments[invoice].account;
      if a == "" {
        a := hint;
      }
      if a == "" {
        return SettleRefused;
      }
      if fault == LoadSubscription || a !in subs {
        return SettleFailed;
      }
      assert Reaches(was, invoice, hint, fault) && a == PayerOf(was, invoice, hint);
      hide Reaches, PayerOf, RenewedEnd, Extended;
      var periodEnd := Renew(now, a, fault == UpdateLost);
      if fault == UpdateLost || fault == UpdateUnreported {
        return SettleFailed;
      }
      if fault != CompleteLost {
        payments := payments[invoice := payments[invoice].(completed := true)];
      }
      if fault == CompleteLost || fault == CompleteUnreported {
        return SettleFailed;
      }
      published := published + [Event(Renewed, a, "premium", Some(periodEnd))];
      r := Settled(periodEnd);
    }

    // ListExpiredPremium and the loop over it; a failed write is only logged and not counted.
    method ExpireDueSubscriptions(now: int, writes: map<Account, Write>) returns (n: nat, ghost sweeps: seq<Call>)
      modifies this`subs, this`published
      ensures Abs() == Run(old(Abs()), sweeps)
      ensures forall c :: c in sweeps ==> IsSweep(c, now, writes)
      ensures Swept(old(Abs()), Abs(), now, writes, {})
      ensures n == |ExpiredBy(old(Abs()), now, writes, {})|
    {
      hide Run, Swept, ExpiredBy, Books.ExpireOne, Books.EnsureFree;
      var due := set a | a in subs && subs[a].tier.Premium? && subs[a].status.Active? && subs[a].end < now;
      n, sweeps := 0, [];
      DueIsListed(Abs(), now, writes, due);
      RunNothing(Abs());
      hide Due;
      while due != {}
        invariant Abs() == Run(old(Abs()), sweeps)
        invariant forall c :: c in sweeps ==> IsSweep(c, now, writes)
        invariant Swept(old(Abs()), Abs(), now, writes, due)
        invariant n == |ExpiredBy(old(Abs()), now, writes, due)|
      {
        var a :| a in due;
        ghost var c := Call(now, Sweep(a, WriteOf(writes, a)));
        OneSwept(old(Abs()), Abs(), now, writes, due, a);
        RunThen(old(Abs()), sweeps, c);
        var ok, _ := ExpireOne(now, a, WriteOf(writes, a));
        sweeps := sweeps + [c];
        due := due - {a};
        if ok {
          n := n + 1;
        }
      }
    }
  }
}
