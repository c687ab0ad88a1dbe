/** Expiry sweeps are unobservable: lazily expired and eagerly swept ledgers give the same answers. */
module SweepErasure {
  import opened Text
  import opened Ledger

  // The same run without sweeps and without GetStatus's inline expiry.
  function Erase(cs: seq<Call>): seq<Call> {
    if cs == [] then []
    else
      var c := cs[|cs| - 1];
      var before := Erase(cs[..|cs| - 1]);
      match c.op
      case Sweep(_, _) => before
      case GetStatus(a, _) => before + [Call(c.now, GetStatus(a, Lost))]
      case _ => before + [c]
  }

  // Two ledgers that differ only in subscriptions that no longer give entitlement.
  ghost predicate Alike(l: Ledger, m: Ledger, now: int) {
    && l.period == m.period && l.methods == m.methods && l.payments == m.payments && l.subs.Keys == m.subs.Keys
    && forall a :: a in l.subs ==>
      && Entitled(l, a, now) == Entitled(m, a, now)
      && (Entitled(l, a, now) ==> l.subs[a].end == m.subs[a].end && l.subs[a].cancel == m.subs[a].cancel)
  }

  lemma AlikeLater(l: Ledger, m: Ledger, now: int, later: int)
    requires Alike(l, m, now) && now <= later
    ensures Alike(l, m, later)
  {
    forall a | a in l.subs
      ensures Entitled(l, a, later) == Entitled(m, a, later)
    {
      assert Entitled(l, a, now) == Entitled(m, a, now);
    }
  }

  lemma SweepStaysAlike(l: Ledger, m: Ledger, c: Call)
    requires Alike(l, m, c.now) && c.op.Sweep?
    ensures Alike(Step(l, c), m, c.now)
  {
  }

  // The two sides rewrite the same account's row.
  lemma AlikeRewritten(l: Ledger, m: Ledger, l1: Ledger, m1: Ledger, a: Account, now: int)
    requires Alike(l, m, now) && l1.period == l.period && m1.period == m.period && l1.payments == m1.payments
    requires l1.methods == l.methods && m1.methods == m.methods
    requires a in l1.subs && l1.subs == l.subs[a := l1.subs[a]]
    requires a in m1.subs && m1.subs == m.subs[a := m1.subs[a]]
    requires Entitled(l1, a, now) == Entitled(m1, a, now)
    requires Entitled(l1, a, now) ==> l1.subs[a].end == m1.subs[a].end && l1.subs[a].cancel == m1.subs[a].cancel
    ensures Alike(l1, m1, now)
  {
    forall b | b in l1.subs ensures Entitled(l1, b, now) == Entitled(m1, b, now) {
      if b != a { assert Entitled(l, b, now) == Entitled(m, b, now); }
    }
  }

  lemma StatusAgrees(l: Ledger, m: Ledger, now: int, a: Account, expiry: Write)
    requires Alike(l, m, now)
    ensures var c, d := Call(now, GetStatus(a, expiry)), Call(now, GetStatus(a, Lost));
      Answer(l, c) == Answer(m, d) && Alike(Step(l, c), Step(m, d), now)
  {
    if a in l.subs {
      assert Entitled(l, a, now) == Entitled(m, a, now);
    }
    var l1, m1 := Step(l, Call(now, GetStatus(a, expiry))), Step(m, Call(now, GetStatus(a, Lost)));
    AlikeRewritten(l, m, l1, m1, a, now);
  }

  lemma CheckoutAgrees(l: Ledger, m: Ledger, c: Call)
    requires Alike(l, m, c.now) && c.op.Checkout?
    ensures Answer(l, c) == Answer(m, c) && Alike(Step(l, c), Step(m, c), c.now)
  {
    var a := c.op.account;
    if a in l.subs {
      assert Entitled(l, a, c.now) == Entitled(m, a, c.now);
    }
    if Writes(l, c.op, c.now) {
      AlikeRewritten(l, m, Step(l, c), Step(m, c), a, c.now);
    }
  }

  lemma CancelAgrees(l: Ledger, m: Ledger, c: Call)
    requires Alike(l, m, c.now) && c.op.Cancel?
    ensures Answer(l, c) == Answer(m, c) && Alike(Step(l, c), Step(m, c), c.now)
  {
    var a := c.op.account;
    if a in l.subs {
      assert Entitled(l, a, c.now) == Entitled(m, a, c.now);
      AlikeRewritten(l, m, Step(l, c), Step(m, c), a, c.now);
    }
  }

  lemma SameReach(l: Ledger, m: Ledger, c: Call)
    requires Alike(l, m, c.now) && c.op.Settle?
    ensures Reaches(l, c.op.invoice, c.op.hint, c.op.fault) == Reaches(m, c.op.invoice, c.op.hint, c.op.fault)
    ensures Reaches(l, c.op.invoice, c.op.hint, c.op.fault) ==>
      var a := PayerOf(l, c.op.invoice, c.op.hint);
      && Entitled(l, a, c.now) == Entitled(m, a, c.now)
      && RenewedEnd(l, a, c.now) == RenewedEnd(m, a, c.now)
    ensures SettleSeen(l, c.now, c.op) == SettleSeen(m, c.now, c.op)
  {
    if Reaches(l, c.op.invoice, c.op.hint, c.op.fault) {
      var a := PayerOf(l, c.op.invoice, c.op.hint);
      assert Entitled(l, a, c.now) == Entitled(m, a, c.now);
    }
  }

  lemma SettleStaysAlike(l: Ledger, m: Ledger, c: Call)
    requires Alike(l, m, c.now) && c.op.Settle? && Extends(l, c.op) && Extends(m, c.op)
    requires var a := PayerOf(l, c.op.invoice, c.op.hint); RenewedEnd(l, a, c.now) == RenewedEnd(m, a, c.now)
    ensures Alike(Step(l, c), Step(m, c), c.now)
  {
    hide RenewedEnd;
    AlikeRewritten(l, m, Step(l, c), Step(m, c), PayerOf(l, c.op.invoice, c.op.hint), c.now);
  }

  lemma SettleAgrees(l: Ledger, m: Ledger, c: Call)
    requires Alike(l, m, c.now) && c.op.Settle?
    ensures Answer(l, c) == Answer(m, c) && Alike(Step(l, c), Step(m, c), c.now)
  {
    hide RenewedEnd;
    SameReach(l, m, c);
    assert Answer(l, c) == Answer(m, c);
    if Extends(l, c.op) {
      SettleStaysAlike(l, m, c);
    }
  }

  // One call on both sides, with or without inline expiry on the left.
  lemma CallsAgree(l: Ledger, m: Ledger, c: Call, d: Call)
    requires Alike(l, m, c.now) && !c.op.Sweep? && c.now == d.now
    requires if c.op.GetStatus? then d.op == GetStatus(c.op.account, Lost) else d.op == c.op
    ensures Answer(l, c) == Answer(m, d)
    ensures Alike(Step(l, c), Step(m, d), c.now)
  {
    hide Step, Answer, Alike;
    match c.op
    case GetStatus(a, expiry) => StatusAgrees(l, m, c.now, a, expiry);
    case Settle(_, _, _) => SettleAgrees(l, m, c);
    case Checkout(_, _, _, _) => CheckoutAgrees(l, m, c);
    case Cancel(_, _) => CancelAgrees(l, m, c);
    case Sweep(_, _) =>
  }

  lemma AlikeItself(l: Ledger, now: int)
    ensures Alike(l, l, now)
  {
  }

  lemma SweepHasNoAnswer(l: Ledger, c: Call)
    requires c.op.Sweep?
    ensures Answer(l, c) == None
  {
  }

  lemma {:induction false} ErasedRunIsAlike(l: Ledger, cs: seq<Call>, start: int)
    requires Chronological(start, cs)
    ensures Alike(Run(l, cs), Run(l, Erase(cs)), Clock(start, cs))
    ensures Answers(l, cs) == Answers(l, Erase(cs))
  {
    hide Step, Answer, Alike;
    if cs == [] {
      AlikeItself(l, start);
    } else {
      var n := |cs| - 1;
      var c := cs[n];
      var init := cs[..n];
      ChronologicalPrefix(start, cs);
      ErasedRunIsAlike(l, init, start);
      AlikeLater(Run(l, init), Run(l, Erase(init)), Clock(start, init), c.now);
      if c.op.Sweep? {
        SweepStaysAlike(Run(l, init), Run(l, Erase(init)), c);
        SweepHasNoAnswer(Run(l, init), c);
      } else {
        var d := if c.op.GetStatus? then Call(c.now, GetStatus(c.op.account, Lost)) else c;
        CallsAgree(Run(l, init), Run(l, Erase(init)), c, d);
        RunThen(l, Erase(init), d);
      }
    }
  }

  /** For any two chronological runs that differ only in where expiry sweeps (and GetStatus's inline
      expiry) happen, every premium answer, every checkout decision, every cancel result and every
      settled period end is the same. */
  lemma SweepsAreUnobservable(l: Ledger, cs: seq<Call>, ds: seq<Call>, start: int)
    requires Chronological(start, cs) && Chronological(start, ds) && Erase(cs) == Erase(ds)
    ensures Answers(l, cs) == Answers(l, ds)
  {
    ErasedRunIsAlike(l, cs, start);
    ErasedRunIsAlike(l, ds, start);
  }
}
