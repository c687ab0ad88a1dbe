/** Cache loss is harmless: whatever Redis holds, live addresses stay distinct and the upsert of a
    create never meets the unique index, except after one kind of late agent report. */
module CacheSafety {
  import opened AddressPool
  import opened Provisioning

  ghost predicate DistinctHosts(rows: Rows) {
    forall j, k :: LiveSlot(rows, j) && LiveSlot(rows, k) && j.server == k.server && rows[j].host == rows[k].host
      ==> j == k
  }

  ghost predicate Safe(st: State) {
    && DistinctHosts(st.rows)
    && forall s :: s in st.flights ==> !UpsertRefused(st, s)
  }

  // A report arrives for a removed row of another account whose old address a create has just
  // checked and holds; the index does not stop the revival.
  predicate RevivesReserved(st: State, l: Label) {
    && l.Applied?
    && l.slot in st.rows && !Live(st.rows[l.slot])
    && l.slot.server in st.flights
    && var f := st.flights[l.slot.server];
      && f.phase == Holding(st.rows[l.slot].host)
      && f.request.account != l.slot.account
      && !IndexRefuses(st.rows, l.slot, st.rows[l.slot].host)
  }

  lemma SafeUpsert(st: State, s: Server)
    requires Safe(st) && s in st.flights && st.flights[s].phase.Holding?
    ensures Safe(Step(st, Upsert(s)))
  {
    hide FirstClear, WithBit, Pool, Admitted, SupersededRelease;
    var k := Slot(st.flights[s].request.account, s);
    var next := Step(st, Upsert(s));
    var rows := next.rows;
    forall i, j | LiveSlot(rows, i) && LiveSlot(rows, j) && i.server == j.server && rows[i].host == rows[j].host
      ensures i == j
    {
      assert i != k && j == k ==> !Holds(st.rows, i, s, st.flights[s].phase.host);
      assert i == k && j != k ==> !Holds(st.rows, j, s, st.flights[s].phase.host);
    }
    forall t | t in next.flights
      ensures !UpsertRefused(next, t)
    {
      assert !UpsertRefused(st, t) && t != s;
      forall other | other in next.rows && other != k
        ensures forall h :: Holds(next.rows, other, t, h) ==> Holds(st.rows, other, t, h)
      {
      }
    }
  }

  // Rows that are live in `after` were live, at the same host, in `before`.
  ghost predicate NoNewHolder(before: Rows, after: Rows) {
    forall k :: LiveSlot(after, k) ==> LiveSlot(before, k) && after[k].host == before[k].host
  }

  lemma SafeWithoutNewHolder(st: State, next: State)
    requires Safe(st) && NoNewHolder(st.rows, next.rows)
    requires forall s :: s in next.flights && next.flights[s].phase.Holding? ==>
      || (s in st.flights && st.flights[s] == next.flights[s])
      || !HostTaken(st.rows, s, next.flights[s].phase.host)
    ensures Safe(next)
  {
  }

  lemma SafeReport(st: State, k: Slot)
    requires Safe(st)
    ensures Safe(Step(st, Applied(k))) <==> !RevivesReserved(st, Applied(k))
  {
    var next := Step(st, Applied(k));
    if k !in st.rows || IndexRefuses(st.rows, k, st.rows[k].host) {
    } else if Live(st.rows[k]) {
      SafeWithoutNewHolder(st, next);
    } else {
      var h := st.rows[k].host;
      forall i, j | LiveSlot(next.rows, i) && LiveSlot(next.rows, j) && i.server == j.server
                    && next.rows[i].host == next.rows[j].host
        ensures i == j
      {
        if i == k && j != k {
          assert Holds(st.rows, j, k.server, h);
        } else if j == k && i != k {
          assert Holds(st.rows, i, k.server, h);
        }
      }
      if RevivesReserved(st, Applied(k)) {
        assert Holds(next.rows, k, k.server, h);
        assert UpsertRefused(next, k.server);
      }
    }
  }

  lemma SafeOther(st: State, l: Label)
    requires Safe(st) && !l.Applied? && !(l.Upsert? && l.s in st.flights && st.flights[l.s].phase.Holding?)
    ensures Safe(Step(st, l))
  {
    hide FirstClear, WithBit, Pool, Admitted, SupersededRelease, IndexRefuses, DropAt, Safe;
    SafeWithoutNewHolder(st, Step(st, l));
  }

  /** One step, whatever it is, keeps the addresses safe exactly when it is not that late report. */
  lemma StepSafe(st: State, l: Label)
    requires Safe(st)
    ensures Safe(Step(st, l)) <==> !RevivesReserved(st, l)
  {
    hide Step, Safe;
    if l.Applied? {
      SafeReport(st, l.slot);
    } else if l.Upsert? && l.s in st.flights && st.flights[l.s].phase.Holding? {
      SafeUpsert(st, l.s);
    } else {
      SafeOther(st, l);
    }
  }

  ghost predicate NeverRevives(st: State, ls: seq<Label>) {
    forall i :: 0 <= i < |ls| ==> !RevivesReserved(Run(st, ls[..i]), ls[i])
  }

  lemma {:induction false} RunSafe(st: State, ls: seq<Label>)
    requires Safe(st) && NeverRevives(st, ls)
    ensures Safe(Run(st, ls))
  {
    if ls == [] {
    } else {
      var n := |ls| - 1;
      var init := ls[..n];
      assert forall i :: 0 <= i < n ==> init[..i] == ls[..i];
      RunSafe(st, init);
      StepSafe(Run(st, init), ls[n]);
    }
  }

  /** In every run from the empty state, with the bitmaps replaced by anything at any point, no upsert
      is refused and live addresses stay distinct, if no report revives a reserved address. */
  lemma CacheLossIsHarmless(ls: seq<Label>, n: nat)
    requires n <= |ls| && NeverRevives(INITIAL, ls)
    ensures DistinctHosts(Run(INITIAL, ls[..n]).rows)
    ensures forall s :: !UpsertRefused(Run(INITIAL, ls[..n]), s)
  {
    assert forall i :: 0 <= i < n ==> ls[..n][..i] == ls[..i];
    assert NeverRevives(INITIAL, ls[..n]);
    RunSafe(INITIAL, ls[..n]);
  }

  // Reports that only reach rows that are not removed.
  ghost predicate ReportsReachLiveRows(st: State, ls: seq<Label>) {
    forall i :: 0 <= i < |ls| && ls[i].Applied? ==> LiveSlot(Run(st, ls[..i]).rows, ls[i].slot)
  }

  lemma PunctualReportsNeverRevive(st: State, ls: seq<Label>)
    requires ReportsReachLiveRows(st, ls)
    ensures NeverRevives(st, ls)
  {
  }

  /** The exclusion cannot be dropped: a report that revives a reserved address makes the very next
      upsert on that server fail, and the reserved address is given back. */
  lemma LateReportRefusesUpsert(st: State, l: Label)
    requires Safe(st) && RevivesReserved(st, l)
    ensures var s := l.slot.server; var h := st.rows[l.slot].host; var next := Step(Step(st, l), Upsert(s));
      && UpsertRefused(Step(st, l), s)
      && next.rows == Step(st, l).rows && s !in next.flights
      && !Bit(Pool(next, s), h - 2)
      && Holds(next.rows, l.slot, s, h)
  {
    var s := l.slot.server;
    assert Holds(Step(st, l).rows, l.slot, s, st.rows[l.slot].host);
  }
}
