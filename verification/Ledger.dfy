/** billing-svc's subscriptions and payments as a state machine over a clock. Every call happens at one
    instant; listing one due account and expiring it is one step. */
module Ledger {
  import opened Text
  import opened TierSync

  type Account = string
  type Invoice = string

  datatype Tier = Free | Premium
  datatype Status = Active | Pending

  const PAYMENT_NONE := "none"
  const PAYMENT_BTCPAY := "btcpay"

  // Times and durations are in seconds.
  const DAY := 86400
  const CENTURY := 100 * 365 * DAY

  type Period = d: int | d > 0 witness 1

  function PeriodDuration(days: int): Period {
    (if days <= 0 then 30 else days) * DAY
  }

  // The payment methods the database's CHECK constraint lets through: the service's own migrations, which it
  // applies at every start, and the deployment's, which add Monero.
  const EMBEDDED_METHODS := {"stripe", "btcpay", "none"}
  const DEPLOYED_METHODS := {"stripe", "btcpay", "btcpay_xmr", "none"}

  datatype Subscription = Subscription(tier: Tier, status: Status, payment: string, start: int, end: int, cancel: bool)
  datatype Payment = Payment(account: Account, completed: bool)

  datatype Ledger = Ledger(period: Period, methods: set<string>, subs: map<Account, Subscription>,
                           payments: map<Invoice, Payment>, log: seq<Event>)

  function NewLedger(period: Period, methods: set<string>): Ledger {
    Ledger(period, methods, map[], map[], [])
  }

  predicate Paying(s: Subscription) {
    s.tier.Premium? && s.status.Active?
  }

  predicate Entitled(l: Ledger, a: Account, now: int) {
    a in l.subs && Paying(l.subs[a]) && now < l.subs[a].end
  }

  predicate Due(l: Ledger, a: Account, now: int) {
    a in l.subs && Paying(l.subs[a]) && l.subs[a].end < now
  }

  // A write can be lost, or done although the caller is told that it failed.
  datatype Write = Done | Lost | Unreported

  // Where a checkout meets the database, and how a failed write can leave it.
  datatype CheckoutFault =
    | NoCheckoutFault
    | ReadLost
    | UpsertLost
    | UpsertUnreported
    | ReloadLost
    | RecordLost
    | RecordUnreported

  // Where a settlement meets the database, and how a failed write can leave it.
  datatype Fault =
    | NoFault
    | LoadPayment
    | LoadSubscription
    | UpdateLost
    | UpdateUnreported
    | CompleteLost
    | CompleteUnreported

  datatype Op =
    | GetStatus(account: Account, expiry: Write)
    | Checkout(account: Account, payment: string, issued: Option<Invoice>, flaw: CheckoutFault)
    | Cancel(account: Account, write: Write)
    | Settle(invoice: Invoice, hint: Account, fault: Fault)
    | Sweep(account: Account, write: Write)

  datatype Call = Call(now: int, op: Op)

  datatype Seen =
    | StatusSeen(isPremium: bool)
    | CheckoutSeen(accepted: bool)
    | CancelSeen(found: bool)
    | CancelFailed
    | Settled(end: int)
    | AlreadySettled
    | SettleRefused
    | SettleFailed

  function TierName(t: Tier): string {
    match t
    case Free => "free"
    case Premium => "premium"
  }

  function FreeSince(now: int): Subscription {
    Subscription(Free, Active, PAYMENT_NONE, now, now + CENTURY, false)
  }

  // The event follows only a write that reports success.
  function ExpireOne(l: Ledger, a: Account, now: int, write: Write): Ledger {
    match write
    case Done => l.(subs := l.subs[a := FreeSince(now)], log := l.log + [Event(Expired, a, "free", None)])
    case Lost => l
    case Unreported => l.(subs := l.subs[a := FreeSince(now)])
  }

  function EnsureFree(l: Ledger, a: Account, now: int): Ledger {
    if a in l.subs then l else l.(subs := l.subs[a := FreeSince(now)])
  }

  predicate CheckoutAccepted(l: Ledger, a: Account, now: int) {
    a != "" && !(Entitled(l, a, now) && !l.subs[a].cancel)
  }

  // A free subscription stays visible until the payment settles; any other is overwritten as pending.
  function CheckedOut(l: Ledger, a: Account, payment: string, now: int): Subscription {
    if a in l.subs && l.subs[a].tier.Free? then
      Subscription(Free, Active, payment, l.subs[a].start, l.subs[a].end, false)
    else Subscription(Premium, Pending, payment, now, now, false)
  }

  // The checkout gets as far as writing the subscription, and as recording its payment.
  predicate Writes(l: Ledger, op: Op, now: int) {
    && op.Checkout? && CheckoutAccepted(l, op.account, now)
    && op.payment in l.methods && op.flaw != ReadLost && op.flaw != UpsertLost
  }

  predicate Records(l: Ledger, op: Op, now: int) {
    && Writes(l, op, now) && op.issued.Some?
    && op.flaw != UpsertUnreported && op.flaw != ReloadLost && op.flaw != RecordLost
  }

  function CheckoutStep(l: Ledger, now: int, op: Op): Ledger
    requires op.Checkout?
  {
    if !Writes(l, op, now) then l
    else
      var written := l.(subs := l.subs[op.account := CheckedOut(l, op.account, op.payment, now)]);
      if Records(l, op, now) && op.issued.value !in l.payments then
        written.(payments := l.payments[op.issued.value := Payment(op.account, false)])
      else written
  }

  function CancelStep(l: Ledger, a: Account, write: Write): Ledger {
    if a !in l.subs || write == Lost then l
    else
      var canceled := l.(subs := l.subs[a := l.subs[a].(cancel := true)]);
      if write == Unreported then canceled
      else canceled.(log := l.log + [Event(Canceled, a, TierName(l.subs[a].tier), None)])
  }

  function PayerOf(l: Ledger, invoice: Invoice, hint: Account): Account
    requires invoice in l.payments
  {
    if l.payments[invoice].account != "" then l.payments[invoice].account else hint
  }

  // The settlement gets as far as writing the subscription.
  predicate Reaches(l: Ledger, invoice: Invoice, hint: Account, fault: Fault) {
    && invoice != "" && fault != LoadPayment
    && invoice in l.payments && !l.payments[invoice].completed
    && PayerOf(l, invoice, hint) != "" && fault != LoadSubscription
    && PayerOf(l, invoice, hint) in l.subs
  }

  // A running premium period is extended from its end, anything else starts now.
  function RenewedEnd(l: Ledger, a: Account, now: int): int {
    (if Entitled(l, a, now) then l.subs[a].end else now) + l.period
  }

  function Extended(l: Ledger, a: Account, now: int): Ledger {
    var end := RenewedEnd(l, a, now);
    l.(subs := l.subs[a := Subscription(Premium, Active, PAYMENT_BTCPAY, end - l.period, end, false)])
  }

  function Completed(l: Ledger, invoice: Invoice): Ledger
    requires invoice in l.payments
  {
    l.(payments := l.payments[invoice := l.payments[invoice].(completed := true)])
  }

  predicate Extends(l: Ledger, op: Op) {
    op.Settle? && Reaches(l, op.invoice, op.hint, op.fault) && op.fault != UpdateLost
  }

  predicate Completes(l: Ledger, op: Op) {
    Extends(l, op) && (op.fault == NoFault || op.fault == CompleteUnreported)
  }

  function SettleStep(l: Ledger, now: int, op: Op): Ledger
    requires op.Settle?
  {
    if !Extends(l, op) then l
    else
      var a := PayerOf(l, op.invoice, op.hint);
      var paid := Extended(l, a, now);
      if !Completes(l, op) then paid
      else if op.fault == NoFault then
        Completed(paid, op.invoice).(log := l.log + [Event(Renewed, a, "premium", Some(RenewedEnd(l, a, now)))])
      else Completed(paid, op.invoice)
  }

  function SettleSeen(l: Ledger, now: int, op: Op): Seen
    requires op.Settle?
  {
    if op.invoice == "" then SettleRefused
    else if op.fault == LoadPayment then SettleFailed
    else if op.invoice !in l.payments then SettleRefused
    else if l.payments[op.invoice].completed then AlreadySettled
    else if PayerOf(l, op.invoice, op.hint) == "" then SettleRefused
    else if !Reaches(l, op.invoice, op.hint, op.fault) || op.fault != NoFault then SettleFailed
    else Settled(RenewedEnd(l, PayerOf(l, op.invoice, op.hint), now))
  }

  function Step(l: Ledger, c: Call): Ledger {
    match c.op
    case GetStatus(a, expiry) =>
      var ensured := EnsureFree(l, a, c.now);
      if Due(ensured, a, c.now) then ExpireOne(ensured, a, c.now, expiry) else ensured
    case Checkout(_, _, _, _) => CheckoutStep(l, c.now, c.op)
    case Cancel(a, write) => CancelStep(l, a, write)
    case Settle(_, _, _) => SettleStep(l, c.now, c.op)
    case Sweep(a, write) => if Due(l, a, c.now) then ExpireOne(l, a, c.now, write) else l
  }

  // What the caller is told; a sweep has no caller.
  function Answer(l: Ledger, c: Call): Option<Seen> {
    match c.op
    case GetStatus(a, _) => Some(StatusSeen(Entitled(Step(l, c), a, c.now)))
    case Checkout(_, _, _, flaw) => Some(CheckoutSeen(Records(l, c.op, c.now) && flaw != RecordUnreported))
    case Cancel(a, write) => Some(if write == Done then CancelSeen(a in l.subs) else CancelFailed)
    case Settle(_, _, _) => Some(SettleSeen(l, c.now, c.op))
    case Sweep(_, _) => None
  }

  function Run(l: Ledger, cs: seq<Call>): Ledger {
    if cs == [] then l else Step(Run(l, cs[..|cs| - 1]), cs[|cs| - 1])
  }

  function Answers(l: Ledger, cs: seq<Call>): seq<Seen> {
    if cs == [] then []
    else
      var n := |cs| - 1;
      var before := Answers(l, cs[..n]);
      match Answer(Run(l, cs[..n]), cs[n])
      case Some(seen) => before + [seen]
      case None => before
  }

  lemma RunNothing(l: Ledger)
    ensures Run(l, []) == l
  {
  }

  lemma RunThen(l: Ledger, cs: seq<Call>, c: Call)
    ensures Run(l, cs + [c]) == Step(Run(l, cs), c)
    ensures Answers(l, cs + [c]) == Answers(l, cs) +
      (match Answer(Run(l, cs), c) case Some(seen) => [seen] case None => [])
  {
    hide Step, Answer;
    assert (cs + [c])[..|cs + [c]| - 1] == cs;
  }

  // The time of the last call.
  function Clock(start: int, cs: seq<Call>): int {
    if cs == [] then start else cs[|cs| - 1].now
  }

  ghost predicate Chronological(start: int, cs: seq<Call>) {
    forall i :: 0 <= i < |cs| ==> Clock(start, cs[..i]) <= cs[i].now
  }

  lemma ChronologicalPrefix(start: int, cs: seq<Call>)
    requires cs != [] && Chronological(start, cs)
    ensures Chronological(start, cs[..|cs| - 1])
    ensures Clock(start, cs[..|cs| - 1]) <= cs[|cs| - 1].now
  {
    var init := cs[..|cs| - 1];
    assert forall i :: 0 <= i < |init| ==> init[..i] == cs[..i];
  }

  /** With the constraint that the service's own migrations leave in force, a Monero checkout is refused and
      changes nothing. */
  lemma MoneroNeedsDeployedMethods(l: Ledger, c: Call)
    requires l.methods == EMBEDDED_METHODS && c.op.Checkout? && c.op.payment == "btcpay_xmr"
    ensures Step(l, c) == l && Answer(l, c) == Some(CheckoutSeen(false))
  {
    assert c.op.payment !in EMBEDDED_METHODS;
  }
}
