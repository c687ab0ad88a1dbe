/** Paid time is conserved, and the end of the last period has a closed form. */
module PaidTime {
  import opened Text
  import opened Ledger

  // The call extends this account's premium period.
  predicate Grants(l: Ledger, op: Op, a: Account) {
    Extends(l, op) && PayerOf(l, op.invoice, op.hint) == a
  }

  // Entitled time the account still has at an instant.
  function Remaining(l: Ledger, a: Account, now: int): nat {
    if Entitled(l, a, now) then l.subs[a].end - now else 0
  }

  function Min(x: int, y: int): int {
    if x <= y then x else y
  }

  // The instants at which the account's period was extended.
  function GrantTimes(l: Ledger, cs: seq<Call>, a: Account): seq<int> {
    if cs == [] then []
    else
      var n := |cs| - 1;
      GrantTimes(l, cs[..n], a) + (if Grants(Run(l, cs[..n]), cs[n].op, a) then [cs[n].now] else [])
  }

  // Entitled time that has passed by the last call.
  function Used(l: Ledger, cs: seq<Call>, a: Account, start: int): int {
    if cs == [] then 0
    else
      var n := |cs| - 1;
      var before := Clock(start, cs[..n]);
      Used(l, cs[..n], a, start) + Min(Remaining(Run(l, cs[..n]), a, before), cs[n].now - before)
  }

  predicate Forfeits(l: Ledger, c: Call, a: Account) {
    && Writes(l, c.op, c.now) && c.op.account == a
    && Entitled(l, a, c.now) && l.subs[a].cancel
  }

  // Entitled time thrown away by checkouts that write: they overwrite a cancelled but running period.
  function Forfeited(l: Ledger, cs: seq<Call>, a: Account): nat {
    if cs == [] then 0
    else
      var n := |cs| - 1;
      var at := Run(l, cs[..n]);
      Forfeited(l, cs[..n], a) + (if Forfeits(at, cs[n], a) then Remaining(at, a, cs[n].now) else 0)
  }

  lemma StepRemaining(l: Ledger, c: Call, a: Account)
    ensures Remaining(Step(l, c), a, c.now) == Remaining(l, a, c.now)
      + (if Grants(l, c.op, a) then l.period else 0)
      - (if Forfeits(l, c, a) then Remaining(l, a, c.now) else 0)
    ensures Step(l, c).period == l.period
  {
  }

  lemma {:induction false} PeriodIsFixed(l: Ledger, cs: seq<Call>)
    ensures Run(l, cs).period == l.period
  {
    hide Step;
    if cs == [] {
    } else {
      PeriodIsFixed(l, cs[..|cs| - 1]);
      StepRemaining(Run(l, cs[..|cs| - 1]), cs[|cs| - 1], "");
    }
  }

  lemma Distribute(n: nat, d: int)
    ensures (n + 1) * d == n * d + d
  {
  }

  /** Conservation of paid time: over every chronological run, whatever settlements, failed and repeated
      deliveries, cancels, checkouts and sweeps interleave, the entitled time that passed, plus what
      remains, plus what checkouts threw away, is what there was at the start plus one period for each
      extension. */
  lemma {:induction false} PaidTimeIsConserved(l: Ledger, cs: seq<Call>, a: Account, start: int)
    requires Chronological(start, cs)
    ensures Used(l, cs, a, start) + Remaining(Run(l, cs), a, Clock(start, cs)) + Forfeited(l, cs, a)
      == Remaining(l, a, start) + |GrantTimes(l, cs, a)| * l.period
  {
    hide Step, Grants, Forfeits;
    if cs == [] {
    } else {
      var n := |cs| - 1;
      var init := cs[..n];
      var c := cs[n];
      ChronologicalPrefix(start, cs);
      PaidTimeIsConserved(l, init, a, start);
      PeriodIsFixed(l, init);
      StepRemaining(Run(l, init), c, a);
      if Grants(Run(l, init), c.op, a) {
        assert |GrantTimes(l, cs, a)| == |GrantTimes(l, init, a)| + 1;
        Distribute(|GrantTimes(l, init, a)|, l.period);
      }
    }
  }

  lemma ForfeitIsPositive(l: Ledger, c: Call, a: Account)
    ensures Forfeits(l, c, a) ==> Remaining(l, a, c.now) > 0
  {
  }

  lemma {:induction false} ForfeitsAddUp(l: Ledger, cs: seq<Call>, a: Account)
    ensures Forfeited(l, cs, a) == 0 <==> forall i :: 0 <= i < |cs| ==> !Forfeits(Run(l, cs[..i]), cs[i], a)
  {
    hide Run, Forfeits;
    if cs == [] {
    } else {
      var n := |cs| - 1;
      ForfeitsAddUp(l, cs[..n], a);
      assert forall i :: 0 <= i < n ==> cs[..n][..i] == cs[..i];
      ForfeitIsPositive(Run(l, cs[..n]), cs[n], a);
    }
  }

  /** Nothing paid is lost exactly when no checkout overwrites a cancelled but unexpired period. */
  lemma NothingLostIffNoForfeit(l: Ledger, cs: seq<Call>, a: Account, start: int)
    requires Chronological(start, cs)
    ensures Used(l, cs, a, start) + Remaining(Run(l, cs), a, Clock(start, cs))
        == Remaining(l, a, start) + |GrantTimes(l, cs, a)| * l.period
      <==> forall i :: 0 <= i < |cs| ==> !Forfeits(Run(l, cs[..i]), cs[i], a)
  {
    PaidTimeIsConserved(l, cs, a, start);
    ForfeitsAddUp(l, cs, a);
  }

  // The end reached by extending from the later of the previous end and now, time after time.
  function ChainEnd(times: seq<int>, period: int): int
    requires times != []
  {
    var n := |times| - 1;
    if n == 0 then times[0] + period
    else
      var before := ChainEnd(times[..n], period);
      (if before > times[n] then before else times[n]) + period
  }

  function Reach(times: seq<int>, i: nat, period: int): int
    requires i < |times|
  {
    times[i] + (|times| - i) * period
  }

  // end is the maximum over i of times[i] plus one period for it and for each later grant.
  ghost predicate IsLatest(end: int, times: seq<int>, period: int) {
    && (exists i :: 0 <= i < |times| && end == Reach(times, i, period))
    && (forall i :: 0 <= i < |times| ==> Reach(times, i, period) <= end)
  }

  lemma ReachGrows(times: seq<int>, i: nat, period: int)
    requires i < |times| - 1
    ensures Reach(times, i, period) == Reach(times[..|times| - 1], i, period) + period
  {
    Distribute(|times| - 1 - i, period);
  }

  lemma {:induction false} ChainIsLatest(times: seq<int>, period: int)
    requires times != []
    ensures IsLatest(ChainEnd(times, period), times, period)
  {
    var n := |times| - 1;
    assert Reach(times, n, period) == times[n] + period;
    if n > 0 {
      var init := times[..n];
      ChainIsLatest(init, period);
      var i :| 0 <= i < n && ChainEnd(init, period) == Reach(init, i, period);
      ReachGrows(times, i, period);
      forall j | 0 <= j < n ensures Reach(times, j, period) <= ChainEnd(times, period) {
        ReachGrows(times, j, period);
      }
    }
  }

  // From `now` on the account is entitled up to `end`, and its row says so while that lasts.
  ghost predicate RunsUntil(l: Ledger, a: Account, now: int, end: Option<int>) {
    match end
    case None => !Entitled(l, a, now)
    case Some(e) => (Entitled(l, a, now) <==> now < e) && (now < e ==> l.subs[a].end == e)
  }

  lemma RunsUntilLater(l: Ledger, a: Account, now: int, later: int, end: Option<int>)
    requires RunsUntil(l, a, now, end) && now <= later
    ensures RunsUntil(l, a, later, end)
  {
  }

  function ChainTo(times: seq<int>, period: int): Option<int> {
    if times == [] then None else Some(ChainEnd(times, period))
  }

  lemma GrantMovesEnd(l: Ledger, c: Call, a: Account, times: seq<int>)
    requires RunsUntil(l, a, c.now, ChainTo(times, l.period)) && Grants(l, c.op, a)
    ensures RunsUntil(Step(l, c), a, c.now, ChainTo(times + [c.now], l.period))
  {
    hide Reaches;
    assert (times + [c.now])[..|times|] == times;
    assert RenewedEnd(l, a, c.now) == ChainEnd(times + [c.now], l.period);
  }

  lemma OtherCallsKeepEnd(l: Ledger, c: Call, a: Account, end: Option<int>)
    requires RunsUntil(l, a, c.now, end) && !Grants(l, c.op, a) && !Forfeits(l, c, a)
    ensures RunsUntil(Step(l, c), a, c.now, end)
  {
    hide Reaches;
  }

  lemma RunsUntilStep(l: Ledger, c: Call, a: Account, times: seq<int>)
    requires RunsUntil(l, a, c.now, ChainTo(times, l.period)) && !Forfeits(l, c, a)
    ensures RunsUntil(Step(l, c), a, c.now, ChainTo(times + (if Grants(l, c.op, a) then [c.now] else []), l.period))
  {
    hide Step, Grants, Forfeits, RunsUntil, ChainTo;
    if Grants(l, c.op, a) {
      GrantMovesEnd(l, c, a, times);
    } else {
      assert times + [] == times;
      OtherCallsKeepEnd(l, c, a, ChainTo(times, l.period));
    }
  }

  lemma NoRunYet(l: Ledger, a: Account, start: int)
    requires !Entitled(l, a, start)
    ensures RunsUntil(l, a, start, None)
  {
  }

  /** The final end: in a chronological run without forfeits from a ledger that gives no entitlement, the
      account is entitled exactly until the maximum over its n extension times t_i (counted from zero)
      of t_i plus n - i periods. */
  lemma {:induction false} FinalEnd(l: Ledger, cs: seq<Call>, a: Account, start: int)
    requires Chronological(start, cs) && !Entitled(l, a, start)
    requires forall i :: 0 <= i < |cs| ==> !Forfeits(Run(l, cs[..i]), cs[i], a)
    ensures RunsUntil(Run(l, cs), a, Clock(start, cs), ChainTo(GrantTimes(l, cs, a), l.period))
    ensures GrantTimes(l, cs, a) != [] ==>
      exists e :: IsLatest(e, GrantTimes(l, cs, a), l.period) && RunsUntil(Run(l, cs), a, Clock(start, cs), Some(e))
  {
    hide Step, Grants, Forfeits, IsLatest, RunsUntil;
    if cs == [] {
      NoRunYet(l, a, start);
    } else {
      var n := |cs| - 1;
      var init := cs[..n];
      ChronologicalPrefix(start, cs);
      assert forall i :: 0 <= i < n ==> init[..i] == cs[..i];
      FinalEnd(l, init, a, start);
      PeriodIsFixed(l, init);
      RunsUntilLater(Run(l, init), a, Clock(start, init), cs[n].now, ChainTo(GrantTimes(l, init, a), l.period));
      RunsUntilStep(Run(l, init), cs[n], a, GrantTimes(l, init, a));
    }
    if GrantTimes(l, cs, a) != [] {
      ChainIsLatest(GrantTimes(l, cs, a), l.period);
    }
  }

  // ---- invoices ----

  // The invoices an account has settled.
  function SettledFor(l: Ledger, a: Account): set<Invoice> {
    set i | i in l.payments && l.payments[i].completed && l.payments[i].account == a
  }

  // Every payment names its account, as those recorded by a checkout do.
  ghost predicate Named(l: Ledger) {
    forall i :: i in l.payments ==> l.payments[i].account != ""
  }

  predicate Interrupts(l: Ledger, op: Op, a: Account) {
    Grants(l, op, a) && !Completes(l, op)
  }

  // How often an extension of the account was not followed by the completion of its payment.
  function InterruptedFor(l: Ledger, cs: seq<Call>, a: Account): nat {
    if cs == [] then 0
    else
      var n := |cs| - 1;
      InterruptedFor(l, cs[..n], a) + (if Interrupts(Run(l, cs[..n]), cs[n].op, a) then 1 else 0)
  }

  lemma StepSettles(l: Ledger, c: Call, a: Account)
    requires Named(l)
    ensures Named(Step(l, c))
    ensures if Grants(l, c.op, a) && Completes(l, c.op)
      then c.op.invoice !in SettledFor(l, a) && SettledFor(Step(l, c), a) == SettledFor(l, a) + {c.op.invoice}
      else SettledFor(Step(l, c), a) == SettledFor(l, a)
  {
  }

  /** Every extension belongs to an invoice settled then and there, or was interrupted. */
  lemma {:induction false} ExtensionsAreInvoices(l: Ledger, cs: seq<Call>, a: Account)
    requires Named(l)
    ensures Named(Run(l, cs))
    ensures |SettledFor(l, a)| + |GrantTimes(l, cs, a)| == |SettledFor(Run(l, cs), a)| + InterruptedFor(l, cs, a)
  {
    hide Step, Named, SettledFor, Grants, Completes;
    if cs == [] {
    } else {
      var n := |cs| - 1;
      ExtensionsAreInvoices(l, cs[..n], a);
      StepSettles(Run(l, cs[..n]), cs[n], a);
    }
  }

  predicate Uninterrupted(l: Ledger, cs: seq<Call>, a: Account) {
    forall i :: 0 <= i < |cs| ==> !Interrupts(Run(l, cs[..i]), cs[i].op, a)
  }

  lemma {:induction false} NothingInterrupted(l: Ledger, cs: seq<Call>, a: Account)
    ensures InterruptedFor(l, cs, a) == 0 <==> Uninterrupted(l, cs, a)
  {
    hide Run, Interrupts;
    if cs == [] {
    } else {
      var n := |cs| - 1;
      NothingInterrupted(l, cs[..n], a);
      assert forall i :: 0 <= i < n ==> cs[..n][..i] == cs[..i];
    }
  }

  /** Paid time per invoice: from the empty ledger, over every chronological run, an account's n distinct
      settled invoices give it n periods, and one more for each interruption; all of it is used, remains or
      was thrown away by a checkout. */
  lemma PaidTimePerInvoice(period: Period, methods: set<string>, cs: seq<Call>, a: Account, start: int)
    requires Chronological(start, cs)
    ensures var l := NewLedger(period, methods);
      Used(l, cs, a, start) + Remaining(Run(l, cs), a, Clock(start, cs)) + Forfeited(l, cs, a)
      == (|SettledFor(Run(l, cs), a)| + InterruptedFor(l, cs, a)) * period
  {
    var l := NewLedger(period, methods);
    assert SettledFor(l, a) == {};
    PaidTimeIsConserved(l, cs, a, start);
    ExtensionsAreInvoices(l, cs, a);
  }

  lemma Distributes(m: nat, n: nat, d: int)
    ensures (m + n) * d == m * d + n * d
  {
  }

  /** n distinct settled invoices give exactly n periods of entitled time, used or remaining, if and only if
      what interruptions added is what checkouts threw away; so they do in every run with neither. */
  lemma InvoicesGiveTheirPeriods(period: Period, methods: set<string>, cs: seq<Call>, a: Account, start: int)
    requires Chronological(start, cs)
    ensures var l := NewLedger(period, methods);
      Used(l, cs, a, start) + Remaining(Run(l, cs), a, Clock(start, cs)) == |SettledFor(Run(l, cs), a)| * period
      <==> InterruptedFor(l, cs, a) * period == Forfeited(l, cs, a)
    ensures var l := NewLedger(period, methods);
      Uninterrupted(l, cs, a) && (forall i :: 0 <= i < |cs| ==> !Forfeits(Run(l, cs[..i]), cs[i], a)) ==>
        Used(l, cs, a, start) + Remaining(Run(l, cs), a, Clock(start, cs)) == |SettledFor(Run(l, cs), a)| * period
  {
    hide Used, Remaining, Forfeited, SettledFor, InterruptedFor, Run, Uninterrupted, Forfeits;
    var l := NewLedger(period, methods);
    PaidTimePerInvoice(period, methods, cs, a, start);
    NothingInterrupted(l, cs, a);
    ForfeitsAddUp(l, cs, a);
    Distributes(|SettledFor(Run(l, cs), a)|, InterruptedFor(l, cs, a), period);
  }

  /** The final end per invoice: without interruptions and forfeits, an account that settled n invoices is
      entitled exactly until the maximum over its n settlement times t_i (counted from zero) of t_i plus
      n - i periods; with no invoice it is not entitled. */
  lemma FinalEndPerInvoice(period: Period, methods: set<string>, cs: seq<Call>, a: Account, start: int)
    requires Chronological(start, cs) && Uninterrupted(NewLedger(period, methods), cs, a)
    requires forall i :: 0 <= i < |cs| ==> !Forfeits(Run(NewLedger(period, methods), cs[..i]), cs[i], a)
    ensures var l := NewLedger(period, methods); var times := GrantTimes(l, cs, a);
      && |times| == |SettledFor(Run(l, cs), a)|
      && RunsUntil(Run(l, cs), a, Clock(start, cs), ChainTo(times, period))
      && (times != [] ==> IsLatest(ChainEnd(times, period), times, period))
  {
    hide Uninterrupted, Forfeits, IsLatest, RunsUntil, ChainEnd, Run, InterruptedFor, GrantTimes;
    var l := NewLedger(period, methods);
    assert SettledFor(l, a) == {};
    assert Named(l);
    ExtensionsAreInvoices(l, cs, a);
    NothingInterrupted(l, cs, a);
    FinalEnd(l, cs, a, start);
    if GrantTimes(l, cs, a) != [] { ChainIsLatest(GrantTimes(l, cs, a), period); }
  }
}
