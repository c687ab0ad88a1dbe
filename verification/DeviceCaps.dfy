/** Device caps over whole runs, and exactly which steps break them. */
module DeviceCaps {
  import opened Text
  import opened AddressPool
  import opened Entitlement
  import opened Provisioning

  function Devices(st: State, a: Account): nat {
    |PeersOf(st.rows, a)|
  }

  // An admitted create leaves room for the peer it will write, and supersedes one only on Premium.
  predicate FlightWithinCap(st: State, f: Flight) {
    && Devices(st, f.request.account) < MaxDevices(f.request.tier)
    && (f.replaced.Some? ==> NormalizeTier(f.request.tier) == TIER_PREMIUM)
  }

  predicate SameAccount(f: Flight, g: Flight) {
    f.request.account == g.request.account
  }

  ghost predicate OneFlightPerAccount(st: State) {
    forall s, t :: s in st.flights && t in st.flights && SameAccount(st.flights[s], st.flights[t]) ==> s == t
  }

  ghost predicate WithinCaps(st: State) {
    && (forall a :: Devices(st, a) <= PREMIUM_MAX_DEVICES)
    && (forall s :: s in st.flights ==> FlightWithinCap(st, st.flights[s]))
    && OneFlightPerAccount(st)
  }

  // A create begins while another one of its account is in flight.
  predicate Overlaps(st: State, l: Label) {
    && l.Begin? && l.s !in st.flights && Admitted(st.rows, l.request)
    && exists s :: s in st.flights && st.flights[s].request.account == l.request.account
  }

  // A report reaches a removed row and the index does not stop it.
  predicate Revives(st: State, l: Label) {
    && l.Applied? && l.slot in st.rows && !Live(st.rows[l.slot])
    && !IndexRefuses(st.rows, l.slot, st.rows[l.slot].host)
  }

  // It does so for an account that has five devices, or whose create in flight has only one left.
  predicate Overflows(st: State, l: Label) {
    && Revives(st, l)
    && var a := l.slot.account;
      || Devices(st, a) >= PREMIUM_MAX_DEVICES
      || exists s :: s in st.flights && st.flights[s].request.account == a
           && Devices(st, a) + 1 >= MaxDevices(st.flights[s].request.tier)
  }

  predicate Plain(st: State, l: Label) {
    !Overlaps(st, l) && !Revives(st, l)
  }

  lemma PeersAfterUpsert(st: State, s: Server, a: Account)
    requires s in st.flights && st.flights[s].phase.Holding?
    ensures PeersOf(Step(st, Upsert(s)).rows, a) <=
      PeersOf(st.rows, a) + (if st.flights[s].request.account == a then {Slot(a, s)} else {})
  {
    hide FirstClear, WithBit, Pool, SupersededRelease, IndexRefuses;
  }

  lemma PeersAfterOther(st: State, l: Label, a: Account)
    requires !Revives(st, l) && !(l.Upsert? && l.s in st.flights && st.flights[l.s].phase.Holding?)
    ensures PeersOf(Step(st, l).rows, a) <= PeersOf(st.rows, a)
  {
    hide FirstClear, WithBit, Pool, Admitted, SupersededRelease, HostTaken, IndexRefuses;
  }

  // Only the upsert of a create of the same account, or a report that revives its row, can add a device.
  lemma DevicesAfterStep(st: State, l: Label, a: Account)
    requires !Revives(st, l)
    ensures Devices(Step(st, l), a) <= Devices(st, a) + 1
    ensures Devices(Step(st, l), a) > Devices(st, a) ==>
      l.Upsert? && l.s in st.flights && st.flights[l.s].phase.Holding? && st.flights[l.s].request.account == a
  {
    hide Step, PeersOf, Revives;
    var before, after := PeersOf(st.rows, a), PeersOf(Step(st, l).rows, a);
    if l.Upsert? && l.s in st.flights && st.flights[l.s].phase.Holding? {
      PeersAfterUpsert(st, l.s, a);
      SubsetSize(after, before + (if st.flights[l.s].request.account == a then {Slot(a, l.s)} else {}));
    } else {
      PeersAfterOther(st, l, a);
      SubsetSize(after, before);
    }
  }

  lemma BeginWithinCap(st: State, s: Server, r: Request)
    requires s !in st.flights && Admitted(st.rows, r)
    ensures FlightWithinCap(st, Flight(r, Superseded(st.rows, Slot(r.account, s)), Scanning(0)))
  {
    NormalizeTwice(r.tier);
    hide NormalizeTier, CheckSelectedRegion;
    if LiveSlot(st.rows, Slot(r.account, s)) {
      assert Slot(r.account, s) in PeersOf(st.rows, r.account);
    }
  }

  predicate SameCreate(f: Flight, g: Flight) {
    f.request == g.request && f.replaced == g.replaced
  }

  predicate JustBegun(st: State, l: Label, t: Server)
    requires t in Step(st, l).flights
  {
    && l.Begin? && l.s == t && t !in st.flights && Admitted(st.rows, l.request) && Step(st, l).rows == st.rows
    && Step(st, l).flights[t] == Flight(l.request, Superseded(st.rows, Slot(l.request.account, t)), Scanning(0))
  }

  // Every flight after a step was there before with the same request, or has just begun.
  lemma FlightsAfterStep(st: State, l: Label, t: Server)
    requires t in Step(st, l).flights
    ensures if t in st.flights then SameCreate(Step(st, l).flights[t], st.flights[t]) else JustBegun(st, l, t)
  {
    hide FirstClear, WithBit, Pool, Admitted, SupersededRelease, HostTaken, IndexRefuses;
  }

  lemma UpsertLands(st: State, s: Server)
    requires s in st.flights && st.flights[s].phase.Holding?
    ensures s !in Step(st, Upsert(s)).flights
  {
  }

  lemma FlightKeepsItsRoom(st: State, l: Label, t: Server)
    requires OneFlightPerAccount(st) && Plain(st, l) && t in st.flights && t in Step(st, l).flights
    ensures Devices(Step(st, l), st.flights[t].request.account) <= Devices(st, st.flights[t].request.account)
  {
    var a := st.flights[t].request.account;
    DevicesAfterStep(st, l, a);
    if Devices(Step(st, l), a) > Devices(st, a) {
      UpsertLands(st, l.s);
    }
  }

  lemma FlightStaysWithinCap(st: State, l: Label, t: Server)
    requires WithinCaps(st) && Plain(st, l) && t in Step(st, l).flights
    ensures FlightWithinCap(Step(st, l), Step(st, l).flights[t])
  {
    hide Step, NormalizeTier, MaxDevices;
    FlightsAfterStep(st, l, t);
    var f := Step(st, l).flights[t];
    if t in st.flights {
      assert FlightWithinCap(st, st.flights[t]) && SameCreate(f, st.flights[t]);
      FlightKeepsItsRoom(st, l, t);
    } else {
      BeginWithinCap(st, t, l.request);
      assert Devices(Step(st, l), f.request.account) == Devices(st, f.request.account);
    }
  }

  lemma OneFlightStays(st: State, l: Label)
    requires OneFlightPerAccount(st) && Plain(st, l)
    ensures OneFlightPerAccount(Step(st, l))
  {
    var next := Step(st, l);
    forall s, t | s in next.flights && t in next.flights && SameAccount(next.flights[s], next.flights[t])
      ensures s == t
    {
      FlightsAfterStep(st, l, s);
      FlightsAfterStep(st, l, t);
    }
  }

  lemma DevicesStayBelowFive(st: State, l: Label, a: Account)
    requires WithinCaps(st) && Plain(st, l)
    ensures Devices(Step(st, l), a) <= PREMIUM_MAX_DEVICES
  {
    hide Step, NormalizeTier;
    DevicesAfterStep(st, l, a);
    if l.Upsert? && l.s in st.flights {
      assert FlightWithinCap(st, st.flights[l.s]);
    }
  }

  lemma PlainStepWithinCaps(st: State, l: Label)
    requires WithinCaps(st) && Plain(st, l)
    ensures WithinCaps(Step(st, l))
  {
    hide Step, Plain;
    var next := Step(st, l);
    forall a ensures Devices(next, a) <= PREMIUM_MAX_DEVICES { DevicesStayBelowFive(st, l, a); }
    forall t | t in next.flights ensures FlightWithinCap(next, next.flights[t]) { FlightStaysWithinCap(st, l, t); }
    OneFlightStays(st, l);
  }

  lemma ReportRevives(st: State, k: Slot)
    requires Revives(st, Applied(k))
    ensures Step(st, Applied(k)) == st.(rows := st.rows[k := st.rows[k].(status := Active)])
  {
  }

  lemma RevivedPeers(rows: Rows, k: Slot, a: Account)
    requires k in rows && !Live(rows[k])
    ensures k !in PeersOf(rows, k.account)
    ensures PeersOf(rows[k := rows[k].(status := Active)], a) ==
      PeersOf(rows, a) + (if a == k.account then {k} else {})
  {
  }

  /** A report that revives a row adds exactly one device, to its account. */
  lemma LateReportAddsDevice(st: State, k: Slot, a: Account)
    requires Revives(st, Applied(k))
    ensures Devices(Step(st, Applied(k)), a) == Devices(st, a) + (if a == k.account then 1 else 0)
  {
    ReportRevives(st, k);
    RevivedPeers(st.rows, k, a);
    hide Step, PeersOf, Revives;
  }

  lemma RevivalWithinCaps(st: State, k: Slot)
    requires WithinCaps(st) && Revives(st, Applied(k))
    ensures WithinCaps(Step(st, Applied(k))) <==> !Overflows(st, Applied(k))
  {
    hide Step, Revives, Devices, MaxDevices, NormalizeTier;
    ReportRevives(st, k);
    forall a { LateReportAddsDevice(st, k, a); }
    var next := Step(st, Applied(k));
    if WithinCaps(next) {
      assert Devices(next, k.account) <= PREMIUM_MAX_DEVICES;
      forall s | s in st.flights && st.flights[s].request.account == k.account
        ensures Devices(st, k.account) + 1 < MaxDevices(st.flights[s].request.tier)
      {
        assert FlightWithinCap(next, next.flights[s]);
      }
    }
    if !Overflows(st, Applied(k)) {
      forall s | s in next.flights
        ensures FlightWithinCap(next, next.flights[s])
      {
        assert FlightWithinCap(st, st.flights[s]);
      }
    }
  }

  lemma OverlapBreaksCaps(st: State, l: Label)
    requires Overlaps(st, l)
    ensures !OneFlightPerAccount(Step(st, l))
  {
    hide Admitted, Superseded, FirstClear, WithBit, Pool, SupersededRelease, HostTaken, IndexRefuses;
    var s :| s in st.flights && st.flights[s].request.account == l.request.account;
    var next := Step(st, l);
    assert SameAccount(next.flights[s], next.flights[l.s]);
  }

  /** One step, whatever it is, keeps every account within five devices, every create in flight below the cap
      of its tier and the creates of an account apart, exactly when it is neither an overlapping create nor a
      report that overflows. */
  lemma StepWithinCaps(st: State, l: Label)
    requires WithinCaps(st)
    ensures WithinCaps(Step(st, l)) <==> !Overlaps(st, l) && !Overflows(st, l)
  {
    hide Step, Devices, MaxDevices;
    if Overlaps(st, l) {
      OverlapBreaksCaps(st, l);
    } else if Revives(st, l) {
      RevivalWithinCaps(st, l.slot);
    } else {
      PlainStepWithinCaps(st, l);
    }
  }

  ghost predicate KeepsCaps(st: State, ls: seq<Label>) {
    forall i :: 0 <= i < |ls| ==> !Overlaps(Run(st, ls[..i]), ls[i]) && !Overflows(Run(st, ls[..i]), ls[i])
  }

  lemma {:induction false} RunWithinCaps(st: State, ls: seq<Label>)
    requires WithinCaps(st) && KeepsCaps(st, ls)
    ensures WithinCaps(Run(st, ls))
  {
    hide WithinCaps, Overlaps, Overflows, Step;
    if ls == [] {
    } else {
      var n := |ls| - 1;
      var init := ls[..n];
      assert forall i :: 0 <= i < n ==> init[..i] == ls[..i];
      RunWithinCaps(st, init);
      StepWithinCaps(Run(st, init), ls[n]);
    }
  }

  /** In every such run no account has more than five devices; a step that adds one is a create that ends
      within the cap of the tier it resolved, or a report that revives a row; so without such reports the
      count never grows past the new limit after a downgrade. A peer is superseded only on Premium. */
  lemma CapsHold(ls: seq<Label>, l: Label, a: Account)
    requires KeepsCaps(INITIAL, ls)
    ensures var st := Run(INITIAL, ls); var next := Step(st, l);
      && Devices(st, a) <= PREMIUM_MAX_DEVICES
      && (Devices(next, a) > Devices(st, a) && !Revives(st, l) ==>
            && l.Upsert? && l.s in st.flights && st.flights[l.s].request.account == a
            && Devices(next, a) <= MaxDevices(st.flights[l.s].request.tier))
      && (forall s :: s in st.flights && st.flights[s].replaced.Some? ==>
            NormalizeTier(st.flights[s].request.tier) == TIER_PREMIUM)
  {
    var st := Run(INITIAL, ls);
    assert forall b :: PeersOf(INITIAL.rows, b) == {};
    RunWithinCaps(INITIAL, ls);
    hide Step, MaxDevices, NormalizeTier, PeersOf;
    if !Revives(st, l) { DevicesAfterStep(st, l, a); }
    assert forall s :: s in st.flights ==> FlightWithinCap(st, st.flights[s]);
  }

  // Reports that only reach rows that are not removed never overflow.
  lemma PunctualReportsNeverOverflow(st: State, l: Label)
    requires l.Applied? ==> LiveSlot(st.rows, l.slot)
    ensures !Revives(st, l) && !Overflows(st, l)
  {
  }

  lemma UpsertedSlotIsLive(st: State, s: Server)
    requires s in st.flights && st.flights[s].phase.Holding? && !UpsertRefused(st, s)
    ensures LiveSlot(Step(st, Upsert(s)).rows, Slot(st.flights[s].request.account, s))
  {
    hide FirstClear, WithBit, Pool, Admitted, SupersededRelease, HostTaken;
  }

  // The successful end of a create, whatever the tiers before it.
  lemma UpsertEndsWithinCap(st: State, s: Server)
    requires WithinCaps(st) && s in st.flights && st.flights[s].phase.Holding? && !UpsertRefused(st, s)
    ensures var f := st.flights[s]; var next := Step(st, Upsert(s));
      && 1 <= Devices(next, f.request.account) <= MaxDevices(f.request.tier)
      && LiveSlot(next.rows, Slot(f.request.account, s))
  {
    hide Step, UpsertRefused, NormalizeTier, MaxDevices;
    var a := st.flights[s].request.account;
    DevicesAfterStep(st, Upsert(s), a);
    UpsertedSlotIsLive(st, s);
    assert FlightWithinCap(st, st.flights[s]);
    assert Slot(a, s) in PeersOf(Step(st, Upsert(s)).rows, a);
  }
}
