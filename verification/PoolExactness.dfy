/** Without cache loss the bitmap is exact enough that a create's first candidate is always good. */
module PoolExactness {
  import opened Text
  import opened AddressPool
  import opened Provisioning
  import opened CacheSafety

  predicate Marked(st: State, s: Server, h: Host) {
    Bit(Pool(st, s), h - 2)
  }

  // A candidate that a create has drawn: marked, not live and not awaiting a delayed release.
  predicate Drawn(st: State, s: Server, h: Host) {
    Marked(st, s, h) && !HostTaken(st.rows, s, h) && Release(s, h) !in st.releases
  }

  ghost predicate LiveAreMarked(st: State) {
    forall k :: LiveSlot(st.rows, k) ==> Marked(st, k.server, st.rows[k].host)
  }

  ghost predicate ReleasesAreExact(st: State) {
    && (forall r :: r in st.releases ==> Marked(st, r.server, r.host) && !HostTaken(st.rows, r.server, r.host))
    && (forall i, j :: 0 <= i < j < |st.releases| ==> st.releases[i] != st.releases[j])
  }

  // The snapshot of the peer to supersede still is the slot's live row, up to its status.
  predicate Current(rows: Rows, k: Slot, replaced: Option<Peer>) {
    && (replaced.Some? <==> LiveSlot(rows, k))
    && (replaced.Some? ==> replaced.value.host == rows[k].host && replaced.value.pubkey == rows[k].pubkey)
  }

  predicate FlightIsExact(st: State, s: Server)
    requires s in st.flights
  {
    var f := st.flights[s];
    && Current(st.rows, Slot(f.request.account, s), f.replaced)
    && match f.phase
       case Scanning(attempt) => attempt == 0
       case Checking(attempt, h) => attempt == 0 && Drawn(st, s, h)
       case Holding(h) => Drawn(st, s, h)
  }

  ghost predicate Exact(st: State) {
    && DistinctHosts(st.rows)
    && LiveAreMarked(st)
    && ReleasesAreExact(st)
    && forall s :: s in st.flights ==> FlightIsExact(st, s)
  }

  predicate InHand(phase: Phase, h: Host) {
    match phase
    case Scanning(_) => false
    case Checking(_, candidate) => candidate == h
    case Holding(host) => host == h
  }

  // The address is live, awaits a release or is drawn.
  predicate InUse(st: State, s: Server, h: Host) {
    HostTaken(st.rows, s, h) || Release(s, h) in st.releases || (s in st.flights && InHand(st.flights[s].phase, h))
  }

  // The report revives a row whose address is not marked, awaits a release or is drawn, or whose slot a create
  // is working on.
  predicate RevivesUntidily(st: State, k: Slot) {
    && k in st.rows && !Live(st.rows[k]) && !IndexRefuses(st.rows, k, st.rows[k].host)
    && var s := k.server; var h := st.rows[k].host;
      || !Marked(st, s, h)
      || Release(s, h) in st.releases
      || (s in st.flights && (InHand(st.flights[s].phase, h) || st.flights[s].request.account == k.account))
  }

  // A cache loss that forgets an address in use, such a report, or the delete of the slot a create is working on.
  ghost predicate Disturbs(st: State, l: Label) {
    match l
    case LoseCache(s, bits) => exists h: Host :: InUse(st, s, h) && !Bit(bits, h - 2)
    case Applied(k) => RevivesUntidily(st, k)
    case Delete(k) =>
      LiveSlot(st.rows, k) && k.server in st.flights && st.flights[k.server].request.account == k.account
    case _ => false
  }

  lemma DropAtMembers<T(!new)>(xs: seq<T>, i: nat)
    requires i < |xs|
    requires forall a, b :: 0 <= a < b < |xs| ==> xs[a] != xs[b]
    ensures forall x :: x in DropAt(xs, i) <==> x in xs && x != xs[i]
    ensures var ys := DropAt(xs, i); forall a, b :: 0 <= a < b < |ys| ==> ys[a] != ys[b]
  {
    var ys := DropAt(xs, i);
    forall x | x in xs && x != xs[i]
      ensures x in ys
    {
      var j :| 0 <= j < |xs| && xs[j] == x;
      assert j < i ==> ys[j] == x;
      assert j > i ==> ys[j - 1] == x;
    }
  }

  lemma NoNewHolderMeansNoNewTaken(before: Rows, after: Rows)
    requires NoNewHolder(before, after)
    ensures forall s, h :: HostTaken(after, s, h) ==> HostTaken(before, s, h)
  {
    forall s, h | HostTaken(after, s, h) ensures HostTaken(before, s, h) {
      var k :| k in after && Holds(after, k, s, h);
      assert Holds(before, k, s, h);
    }
  }

  // Steps that only take away: no new live row, no new release, the flights that remain as they were.
  lemma ExactFrame(st: State, next: State)
    requires Exact(st) && next.pools == st.pools && NoNewHolder(st.rows, next.rows)
    requires forall r :: r in next.releases ==> r in st.releases
    requires forall i, j :: 0 <= i < j < |next.releases| ==> next.releases[i] != next.releases[j]
    requires forall t :: t in next.flights ==> t in st.flights && next.flights[t] == st.flights[t]
    requires forall t :: t in next.flights ==>
      Current(next.rows, Slot(next.flights[t].request.account, t), next.flights[t].replaced)
    ensures Exact(next)
  {
    NoNewHolderMeansNoNewTaken(st.rows, next.rows);
    forall t | t in next.flights ensures FlightIsExact(next, t) { assert FlightIsExact(st, t); }
  }

  // Clearing the bit of an address that nothing live, pending or in flight refers to.
  lemma ExactAfterClear(st: State, s: Server, h: Host)
    requires Exact(st)
    requires !HostTaken(st.rows, s, h) && Release(s, h) !in st.releases
    requires s in st.flights ==> !InHand(st.flights[s].phase, h)
    ensures Exact(SetBit(st, s, h, false))
  {
    var next := SetBit(st, s, h, false);
    forall k | LiveSlot(next.rows, k) ensures Marked(next, k.server, next.rows[k].host) {
      assert Holds(st.rows, k, k.server, st.rows[k].host);
    }
    forall t | t in next.flights ensures FlightIsExact(next, t) { assert FlightIsExact(st, t); }
  }

  // The upsert moves slot k to host h: afterwards exactly the old holders other than k, and k at h.
  lemma TakenAfterUpsert(before: Rows, after: Rows, k: Slot, s: Server, h: Host)
    requires k in after && (k in before ==> Live(before[k]) ==> before[k].host != after[k].host)
    requires forall j :: j in after && j != k ==> j in before && after[j] == before[j]
    requires after[k].host != h || k.server != s
    requires DistinctHosts(before)
    requires !HostTaken(before, s, h) || Holds(before, k, s, h)
    ensures !HostTaken(after, s, h)
  {
    forall j | j in after ensures !Holds(after, j, s, h) {
      if j != k && Holds(after, j, s, h) {
        assert Holds(before, j, s, h);
      }
    }
  }

  lemma UpsertAccepted(st: State, s: Server)
    requires Exact(st) && s in st.flights && st.flights[s].phase.Holding?
    ensures !UpsertRefused(st, s)
    ensures var h := st.flights[s].phase.host; Drawn(st, s, h) && Safe(st)
  {
    assert FlightIsExact(st, s);
    forall t | t in st.flights ensures !UpsertRefused(st, t) { assert FlightIsExact(st, t); }
  }

  lemma ExactUpsertReleases(st: State, s: Server)
    requires Exact(st) && s in st.flights && st.flights[s].phase.Holding?
    ensures ReleasesAreExact(Step(st, Upsert(s)))
  {
    hide FirstClear, WithBit, Admitted;
    UpsertAccepted(st, s);
    var f := st.flights[s];
    var k := Slot(f.request.account, s);
    var h := f.phase.host;
    var next := Step(st, Upsert(s));
    assert FlightIsExact(st, s);
    assert LiveSlot(st.rows, k) ==> Holds(st.rows, k, s, st.rows[k].host) && st.rows[k].host != h;
    forall r | r in next.releases
      ensures Marked(next, r.server, r.host) && !HostTaken(next.rows, r.server, r.host)
    {
      if r !in st.releases {
        assert r == Release(s, f.replaced.value.host) && Holds(st.rows, k, s, r.host);
      }
      TakenAfterUpsert(st.rows, next.rows, k, r.server, r.host);
    }
    forall r | r in SupersededRelease(f, s, h) ensures r !in st.releases {
      assert Holds(st.rows, k, s, r.host);
    }
  }

  lemma ExactUpsertFlights(st: State, s: Server, t: Server)
    requires Exact(st) && s in st.flights && st.flights[s].phase.Holding?
    requires t in Step(st, Upsert(s)).flights
    ensures FlightIsExact(Step(st, Upsert(s)), t)
  {
    hide FirstClear, WithBit, Admitted, DistinctHosts, LiveAreMarked, ReleasesAreExact, IndexRefuses;
    UpsertAccepted(st, s);
    var next := Step(st, Upsert(s));
    var k := Slot(st.flights[s].request.account, s);
    assert FlightIsExact(st, t) && FlightIsExact(st, s) && t != s;
    var p := next.flights[t].phase;
    assert p == st.flights[t].phase;
    if !p.Scanning? {
      var g := if p.Checking? then p.candidate else p.host;
      assert LiveSlot(st.rows, k) ==> Holds(st.rows, k, s, st.rows[k].host);
      TakenAfterUpsert(st.rows, next.rows, k, t, g);
      assert Release(t, g) !in SupersededRelease(st.flights[s], s, st.flights[s].phase.host);
    }
  }

  lemma ExactUpsert(st: State, s: Server)
    requires Exact(st) && s in st.flights && st.flights[s].phase.Holding?
    ensures Exact(Step(st, Upsert(s)))
  {
    hide FirstClear, WithBit, Admitted;
    UpsertAccepted(st, s);
    SafeUpsert(st, s);
    ExactUpsertReleases(st, s);
    var next := Step(st, Upsert(s));
    forall t | t in next.flights ensures FlightIsExact(next, t) { ExactUpsertFlights(st, s, t); }
  }

  lemma ExactAllocate(st: State, s: Server)
    requires Exact(st) && s in st.flights && st.flights[s].phase.Scanning?
    ensures Exact(Step(st, Allocate(s)))
  {
    var bit := FirstClear(Pool(st, s));
    var next := Step(st, Allocate(s));
    assert FlightIsExact(st, s);
    if bit < POOL_SIZE {
      var h: Host := bit + 2;
      assert !Marked(st, s, h);
      forall k | k in st.rows ensures !Holds(st.rows, k, s, h) {}
      assert Release(s, h) !in st.releases;
      forall t | t in next.flights ensures FlightIsExact(next, t) { assert FlightIsExact(st, t); }
    } else {
      ExactFrame(st, next);
    }
  }

  // An address that is marked but neither live nor drawn may await its release.
  lemma ExactAfterPending(st: State, s: Server, h: Host)
    requires Exact(st) && Marked(st, s, h) && !HostTaken(st.rows, s, h) && Release(s, h) !in st.releases
    requires s in st.flights ==> !InHand(st.flights[s].phase, h)
    ensures Exact(st.(releases := st.releases + [Release(s, h)]))
  {
    var next := st.(releases := st.releases + [Release(s, h)]);
    hide HostTaken, Bit, DistinctHosts;
    forall t | t in next.flights ensures FlightIsExact(next, t) { assert FlightIsExact(st, t); }
  }

  lemma ExactDelete(st: State, k: Slot)
    requires Exact(st) && LiveSlot(st.rows, k) && !Disturbs(st, Delete(k))
    ensures Exact(Step(st, Delete(k)))
  {
    var h := st.rows[k].host;
    assert Holds(st.rows, k, k.server, h);
    var mid := st.(rows := st.rows[k := st.rows[k].(status := Removed)]);
    forall t | t in mid.flights
      ensures Current(mid.rows, Slot(mid.flights[t].request.account, t), mid.flights[t].replaced)
    {
      assert FlightIsExact(st, t);
    }
    ExactFrame(st, mid);
    forall j | j in mid.rows ensures !Holds(mid.rows, j, k.server, h) {}
    if k.server in st.flights { assert FlightIsExact(st, k.server); }
    ExactAfterPending(mid, k.server, h);
  }

  // The create that a delete overtakes still means to supersede the row that is gone.
  lemma OvertakenDelete(st: State, k: Slot)
    requires Exact(st) && Disturbs(st, Delete(k))
    ensures !Exact(Step(st, Delete(k)))
  {
    var next := Step(st, Delete(k));
    assert FlightIsExact(st, k.server);
    assert !FlightIsExact(next, k.server);
  }

  /** Its upsert then releases the same address a second time, unless it brings the same key. */
  lemma OvertakenDeleteReleasesTwice(st: State, k: Slot)
    requires Exact(st) && Disturbs(st, Delete(k)) && st.flights[k.server].phase.Holding?
    requires !IndexRefuses(st.rows, k, st.flights[k.server].phase.host)
    requires st.flights[k.server].request.pubkey != st.rows[k].pubkey
    ensures var r := Release(k.server, st.rows[k].host);
      Step(Step(st, Delete(k)), Upsert(k.server)).releases == st.releases + [r] + [r]
  {
    assert FlightIsExact(st, k.server);
    assert Holds(st.rows, k, k.server, st.rows[k].host);
  }

  lemma ExactRelease(st: State, i: nat)
    requires Exact(st) && i < |st.releases|
    ensures Exact(Step(st, RunRelease(i))) && Exact(Step(st, DropRelease(i)))
  {
    var r := st.releases[i];
    assert r in st.releases;
    DropAtMembers(st.releases, i);
    var mid := st.(releases := DropAt(st.releases, i));
    forall t | t in mid.flights
      ensures Current(mid.rows, Slot(mid.flights[t].request.account, t), mid.flights[t].replaced)
    {
      assert FlightIsExact(st, t);
    }
    ExactFrame(st, mid);
    if r.server in st.flights { assert FlightIsExact(st, r.server); }
    ExactAfterClear(mid, r.server, r.host);
  }

  lemma ExactReport(st: State, k: Slot)
    requires Exact(st) && LiveSlot(st.rows, k)
    ensures Exact(Step(st, Applied(k)))
  {
    var next := Step(st, Applied(k));
    forall t | t in next.flights
      ensures Current(next.rows, Slot(next.flights[t].request.account, t), next.flights[t].replaced)
    {
      assert FlightIsExact(st, t);
    }
    ExactFrame(st, next);
  }

  // A revived row takes its address again, and nothing else changes hands.
  lemma RevivedTaken(rows: Rows, k: Slot, s: Server, h: Host)
    requires k in rows && !Live(rows[k])
    ensures var after := rows[k := rows[k].(status := Active)];
      HostTaken(after, s, h) <==> HostTaken(rows, s, h) || (s == k.server && h == rows[k].host)
  {
    var after := rows[k := rows[k].(status := Active)];
    assert Holds(after, k, k.server, rows[k].host);
    forall j | j in rows && Holds(rows, j, s, h) ensures Holds(after, j, s, h) {}
    forall j | j in after && j != k && Holds(after, j, s, h) ensures Holds(rows, j, s, h) {}
  }

  lemma RevivedDistinct(rows: Rows, k: Slot)
    requires DistinctHosts(rows) && k in rows && !Live(rows[k]) && !IndexRefuses(rows, k, rows[k].host)
    ensures DistinctHosts(rows[k := rows[k].(status := Active)])
  {
    var after := rows[k := rows[k].(status := Active)];
    forall i, j | LiveSlot(after, i) && LiveSlot(after, j) && i.server == j.server && after[i].host == after[j].host
      ensures i == j
    {
      if i == k && j != k {
        assert Holds(rows, j, k.server, rows[k].host);
      } else if j == k && i != k {
        assert Holds(rows, i, k.server, rows[k].host);
      }
    }
  }

  lemma TidyRevival(st: State, k: Slot)
    requires Exact(st) && k in st.rows && !Live(st.rows[k]) && !IndexRefuses(st.rows, k, st.rows[k].host)
    requires !RevivesUntidily(st, k)
    ensures Exact(st.(rows := st.rows[k := st.rows[k].(status := Active)]))
  {
    hide HostTaken, IndexRefuses, DistinctHosts, Bit;
    var next := st.(rows := st.rows[k := st.rows[k].(status := Active)]);
    RevivedDistinct(st.rows, k);
    forall s, h { RevivedTaken(st.rows, k, s, h); }
    forall t | t in next.flights ensures FlightIsExact(next, t) { assert FlightIsExact(st, t); }
  }

  lemma UntidyRevival(st: State, k: Slot)
    requires Exact(st) && RevivesUntidily(st, k)
    ensures !Exact(st.(rows := st.rows[k := st.rows[k].(status := Active)]))
  {
    hide IndexRefuses, DistinctHosts, Bit;
    var next := st.(rows := st.rows[k := st.rows[k].(status := Active)]);
    assert Holds(next.rows, k, k.server, st.rows[k].host);
    assert LiveSlot(next.rows, k);
    if k.server in st.flights {
      assert FlightIsExact(st, k.server);
      assert Exact(next) ==> FlightIsExact(next, k.server);
    }
  }

  lemma UsedIsMarked(st: State, s: Server, h: Host)
    requires Exact(st) && InUse(st, s, h)
    ensures Marked(st, s, h)
  {
    hide Bit;
    if s in st.flights { assert FlightIsExact(st, s); }
  }

  lemma ExactLoss(st: State, s: Server, bits: seq<bool>)
    requires Exact(st)
    ensures Exact(Step(st, LoseCache(s, bits))) <==> !Disturbs(st, LoseCache(s, bits))
  {
    hide DistinctHosts, Bit, FirstClear;
    var next := Step(st, LoseCache(s, bits));
    if !Disturbs(st, LoseCache(s, bits)) {
      forall k | LiveSlot(next.rows, k)
        ensures Marked(next, k.server, next.rows[k].host)
      {
        assert Holds(st.rows, k, k.server, st.rows[k].host);
        if k.server == s { assert InUse(st, s, st.rows[k].host); }
      }
      forall r | r in next.releases
        ensures Marked(next, r.server, r.host)
      {
        if r.server == s { assert InUse(st, s, r.host); }
      }
      forall t | t in next.flights
        ensures FlightIsExact(next, t)
      {
        assert FlightIsExact(st, t);
        var p := st.flights[t].phase;
        if t == s && !p.Scanning? { assert InUse(st, s, if p.Checking? then p.candidate else p.host); }
      }
    }
    if Exact(next) {
      forall h: Host | InUse(st, s, h)
        ensures Bit(bits, h - 2)
      {
        UsedIsMarked(next, s, h);
      }
    }
  }

  lemma ExactAbandon(st: State, s: Server)
    requires Exact(st) && s in st.flights
    ensures Exact(Step(st, Abandon(s)))
  {
    assert FlightIsExact(st, s);
    var mid := Land(st, s);
    forall t | t in mid.flights
      ensures Current(mid.rows, Slot(mid.flights[t].request.account, t), mid.flights[t].replaced)
    {
      assert FlightIsExact(st, t);
    }
    ExactFrame(st, mid);
    var p := st.flights[s].phase;
    if !p.Scanning? {
      var h := if p.Checking? then p.candidate else p.host;
      ExactAfterClear(mid, s, h);
      assert Step(st, Abandon(s)) == SetBit(mid, s, h, false);
    }
  }

  // Replacing one flight by an exact one.
  lemma ExactNewFlight(st: State, s: Server, f: Flight)
    requires Exact(st)
    requires FlightIsExact(st.(flights := st.flights[s := f]), s)
    ensures Exact(st.(flights := st.flights[s := f]))
  {
    var next := st.(flights := st.flights[s := f]);
    forall t | t in next.flights ensures FlightIsExact(next, t) {
      if t != s { assert FlightIsExact(st, t); }
    }
  }

  lemma ExactCheck(st: State, s: Server)
    requires Exact(st) && s in st.flights && st.flights[s].phase.Checking?
    ensures Step(st, Check(s)) == WithPhase(st, s, Holding(st.flights[s].phase.candidate))
    ensures Exact(Step(st, Check(s)))
  {
    assert FlightIsExact(st, s);
    ExactNewFlight(st, s, st.flights[s].(phase := Holding(st.flights[s].phase.candidate)));
  }

  // Calls other than those that can disturb.
  lemma ExactOther(st: State, l: Label)
    requires Exact(st) && !l.Delete? && !l.Applied? && !l.LoseCache?
    ensures Exact(Step(st, l))
  {
    match l
    case Begin(s, r) =>
      if s !in st.flights && Admitted(st.rows, r) {
        ExactNewFlight(st, s, Flight(r, Superseded(st.rows, Slot(r.account, s)), Scanning(0)));
      }
    case Allocate(s) =>
      if s in st.flights && st.flights[s].phase.Scanning? { ExactAllocate(st, s); }
    case Check(s) =>
      if s in st.flights && st.flights[s].phase.Checking? { ExactCheck(st, s); }
    case Upsert(s) =>
      if s in st.flights && st.flights[s].phase.Holding? { ExactUpsert(st, s); }
    case Abandon(s) =>
      if s in st.flights { ExactAbandon(st, s); }
    case RunRelease(i) =>
      if i < |st.releases| { ExactRelease(st, i); }
    case DropRelease(i) =>
      if i < |st.releases| { ExactRelease(st, i); }
  }

  lemma ExactReportIff(st: State, k: Slot)
    requires Exact(st)
    ensures Exact(Step(st, Applied(k))) <==> !Disturbs(st, Applied(k))
  {
    hide Exact, Marked, InHand, IndexRefuses;
    if LiveSlot(st.rows, k) {
      ExactReport(st, k);
    } else if k in st.rows && !IndexRefuses(st.rows, k, st.rows[k].host) {
      if RevivesUntidily(st, k) { UntidyRevival(st, k); } else { TidyRevival(st, k); }
    }
  }

  lemma DeadDelete(st: State, k: Slot)
    requires !LiveSlot(st.rows, k)
    ensures Step(st, Delete(k)) == st
  {
  }

  /** "Every live address is marked; pending releases are distinct, marked and not live; what creates have drawn
      is marked, not live and not pending" is kept by a step of any kind, in every interleaving, exactly when
      the step does not disturb it. */
  lemma StepExact(st: State, l: Label)
    requires Exact(st)
    ensures Exact(Step(st, l)) <==> !Disturbs(st, l)
  {
    hide Step, Exact, RevivesUntidily, InUse;
    match l
    case Delete(k) =>
      if Disturbs(st, l) {
        OvertakenDelete(st, k);
      } else if LiveSlot(st.rows, k) {
        ExactDelete(st, k);
      } else {
        DeadDelete(st, k);
      }
    case Applied(k) => ExactReportIff(st, k);
    case LoseCache(s, bits) => ExactLoss(st, s, bits);
    case _ => ExactOther(st, l);
  }

  ghost predicate UndisturbedRun(st: State, ls: seq<Label>) {
    forall i :: 0 <= i < |ls| ==> !Disturbs(Run(st, ls[..i]), ls[i])
  }

  lemma {:induction false} RunExact(st: State, ls: seq<Label>)
    requires Exact(st) && UndisturbedRun(st, ls)
    ensures Exact(Run(st, ls))
  {
    hide Exact, Disturbs, Step;
    if ls == [] {
    } else {
      var n := |ls| - 1;
      var init := ls[..n];
      assert forall i :: 0 <= i < n ==> init[..i] == ls[..i];
      RunExact(st, init);
      StepExact(Run(st, init), ls[n]);
    }
  }

  lemma InitialIsExact()
    ensures Exact(INITIAL)
  {
  }

  lemma FirstCandidate(st: State, s: Server)
    requires Exact(st) && s in st.flights && st.flights[s].phase.Scanning?
    ensures var drawn := Step(st, Allocate(s));
      if forall h: Host :: Marked(st, s, h) then drawn == Land(st, s)
      else
        && s in drawn.flights
        && Step(drawn, Check(s)) == WithPhase(drawn, s, Holding(FirstClear(Pool(st, s)) + 2))
  {
    hide WithBit, HostTaken, DistinctHosts, LiveAreMarked, ReleasesAreExact;
    assert FlightIsExact(st, s);
    var bit := FirstClear(Pool(st, s));
    ExactAllocate(st, s);
    var drawn := Step(st, Allocate(s));
    if bit < POOL_SIZE {
      assert !Marked(st, s, bit + 2);
      assert FlightIsExact(drawn, s);
    }
  }

  /** Hence in every undisturbed run a create never needs a second attempt: its first candidate, the least
      clear host, passes the check, unless all 254 hosts are marked and the create ends. */
  lemma FirstCandidateWins(ls: seq<Label>, s: Server)
    requires UndisturbedRun(INITIAL, ls)
    requires s in Run(INITIAL, ls).flights && Run(INITIAL, ls).flights[s].phase.Scanning?
    ensures var st := Run(INITIAL, ls); var drawn := Step(st, Allocate(s));
      if forall h: Host :: Marked(st, s, h) then drawn == Land(st, s)
      else
        && s in drawn.flights
        && Step(drawn, Check(s)) == WithPhase(drawn, s, Holding(FirstClear(Pool(st, s)) + 2))
  {
    hide Run, Step, Exact, Marked, FirstClear, Pool, UndisturbedRun, Land, WithPhase;
    InitialIsExact();
    var st := Run(INITIAL, ls);
    RunExact(INITIAL, ls);
    FirstCandidate(st, s);
  }
}
