/** Runs of the provisioning machine from the empty state that reach what its conditions exclude. */
module ProvisioningScenarios {
  import opened Text
  import opened AddressPool
  import opened Entitlement
  import opened Provisioning
  import opened CacheSafety
  import opened PoolExactness
  import DeviceCaps

  function Ask(a: Account, tier: string, key: PubKey): Request {
    Request(a, tier, key, "", "", [])
  }

  function Create(s: Server, r: Request): seq<Label> {
    [Begin(s, r), Allocate(s), Check(s), Upsert(s)]
  }

  // What an undisturbed create leaves behind.
  function Created(st: State, s: Server, r: Request, h: Host): State {
    var k := Slot(r.account, s);
    var f := Flight(r, Superseded(st.rows, k), Holding(h));
    UpsertRow(st, k, r.pubkey, h).(pools := st.pools[s := WithBit(Pool(st, s), h - 2, true)],
                                   releases := st.releases + SupersededRelease(f, s, h))
  }

  // A create that has drawn and checked its address.
  function Reserving(st: State, s: Server, r: Request, h: Host): State {
    st.(pools := st.pools[s := WithBit(Pool(st, s), h - 2, true)],
        flights := st.flights[s := Flight(r, Superseded(st.rows, Slot(r.account, s)), Holding(h))])
  }

  lemma RunThree(st: State, a: Label, b: Label, c: Label)
    ensures Run(st, [a, b, c]) == Step(Step(Step(st, a), b), c)
  {
    hide Step;
    RunNothing(st);
    hide Run;
    RunThen(st, [], a);
    RunThen(st, [a], b);
    RunThen(st, [a, b], c);
    assert [] + [a] == [a] && [a] + [b] == [a, b] && [a, b] + [c] == [a, b, c];
  }

  lemma ReservesAddress(st: State, s: Server, r: Request, h: Host)
    requires s !in st.flights && Admitted(st.rows, r) && FirstClear(Pool(st, s)) == h - 2 && !HostTaken(st.rows, s, h)
    ensures Run(st, [Begin(s, r), Allocate(s), Check(s)]) == Reserving(st, s, r, h)
  {
    RunThree(st, Begin(s, r), Allocate(s), Check(s));
    hide FirstClear, WithBit, Admitted, HostTaken, Superseded, Run;
    var begun := Step(st, Begin(s, r));
    assert begun == st.(flights := st.flights[s := Flight(r, Superseded(st.rows, Slot(r.account, s)), Scanning(0))]);
    var drawn := Step(begun, Allocate(s));
    assert drawn.flights[s].phase == Checking(0, h) && drawn.rows == st.rows;
  }

  lemma UpsertsReserved(st: State, s: Server, r: Request, h: Host)
    requires s !in st.flights && !IndexRefuses(st.rows, Slot(r.account, s), h)
    ensures Step(Reserving(st, s, r, h), Upsert(s)) == Created(st, s, r, h)
  {
    hide FirstClear, WithBit, Superseded, SupersededRelease, IndexRefuses;
    assert Reserving(st, s, r, h).flights - {s} == st.flights;
  }

  lemma NotRefused(rows: Rows, k: Slot, h: Host)
    requires !HostTaken(rows, k.server, h)
    ensures !IndexRefuses(rows, k, h)
  {
  }

  lemma CreateAlone(st: State, s: Server, r: Request, h: Host)
    requires s !in st.flights && Admitted(st.rows, r) && FirstClear(Pool(st, s)) == h - 2 && !HostTaken(st.rows, s, h)
    ensures Run(st, Create(s, r)) == Created(st, s, r, h)
  {
    hide Run, Step, FirstClear, Admitted, HostTaken, Created, Reserving, IndexRefuses;
    ReservesAddress(st, s, r, h);
    NotRefused(st.rows, Slot(r.account, s), h);
    UpsertsReserved(st, s, r, h);
    var first := [Begin(s, r), Allocate(s), Check(s)];
    RunThen(st, first, Upsert(s));
    assert first + [Upsert(s)] == Create(s, r);
  }

  lemma FirstClearIs(bits: seq<bool>, p: nat)
    requires !Bit(bits, p) && forall j: nat :: j < p ==> Bit(bits, j)
    ensures FirstClear(bits) == p
  {
  }

  // An account without devices is admitted on any tier, one with fewer than five on Premium.
  lemma AskIsAdmitted(rows: Rows, a: Account, tier: string, key: PubKey)
    requires PeersOf(rows, a) == {} || (tier == TIER_PREMIUM && |PeersOf(rows, a)| < PREMIUM_MAX_DEVICES)
    ensures Admitted(rows, Ask(a, tier, key))
  {
    PremiumIsNormal();
    NormalizeTwice(tier);
    hide NormalizeTier, RegionAllowed;
  }

  // The state after one account connected on s and left again.
  function Vacated(s: Server, a: Account, key: PubKey): State {
    State(map[Slot(a, s) := Peer(0, key, 2, Removed)], map[s := [false]], map[], [], 1)
  }

  // The state after one account connected on s.
  function Connected(s: Server, a: Account, key: PubKey): State {
    State(map[Slot(a, s) := Peer(0, key, 2, Pending)], map[s := [true]], map[], [], 1)
  }

  lemma FirstBit()
    ensures WithBit([], 0, true) == [true] && FirstClear([]) == 0
  {
    FirstClearIs([], 0);
  }

  lemma FirstIsConnected(s: Server, a: Account, tier: string, key: PubKey)
    ensures Created(INITIAL, s, Ask(a, tier, key), 2) == Connected(s, a, key)
  {
    hide FirstClear, WithBit;
    FirstBit();
  }

  lemma FirstConnects(s: Server, a: Account, tier: string, key: PubKey)
    ensures Run(INITIAL, Create(s, Ask(a, tier, key))) == Connected(s, a, key)
  {
    hide Run, Step, Create, Created, Admitted, FirstClear, Connected;
    assert PeersOf(INITIAL.rows, a) == {};
    AskIsAdmitted(INITIAL.rows, a, tier, key);
    FirstBit();
    CreateAlone(INITIAL, s, Ask(a, tier, key), 2);
    FirstIsConnected(s, a, tier, key);
  }

  lemma ThenLeaves(s: Server, a: Account, key: PubKey)
    ensures Run(Connected(s, a, key), [Delete(Slot(a, s)), RunRelease(0)]) == Vacated(s, a, key)
  {
    RunTwo(Connected(s, a, key), Delete(Slot(a, s)), RunRelease(0));
    hide Run, FirstClear;
    var gone := Step(Connected(s, a, key), Delete(Slot(a, s)));
    assert gone.releases == [Release(s, 2)] && DropAt(gone.releases, 0) == [];
    assert WithBit([true], 0, false) == [false];
  }

  // The next account has reserved the vacated address.
  function Taking(s: Server, a: Account, keyA: PubKey, b: Account, keyB: PubKey): State {
    Reserving(Vacated(s, a, keyA), s, Ask(b, TIER_FREE, keyB), 2)
  }

  lemma NextReserves(s: Server, a: Account, keyA: PubKey, b: Account, keyB: PubKey)
    ensures Run(Vacated(s, a, keyA), [Begin(s, Ask(b, TIER_FREE, keyB)), Allocate(s), Check(s)]) ==
      Taking(s, a, keyA, b, keyB)
  {
    hide Run, Step, Admitted, FirstClear, Reserving, WithBit;
    var st := Vacated(s, a, keyA);
    assert PeersOf(st.rows, b) == {};
    AskIsAdmitted(st.rows, b, TIER_FREE, keyB);
    FirstClearIs([false], 0);
    ReservesAddress(st, s, Ask(b, TIER_FREE, keyB), 2);
  }

  lemma TakingIsSafe(s: Server, a: Account, keyA: PubKey, b: Account, keyB: PubKey)
    requires a != b
    ensures Safe(Taking(s, a, keyA, b, keyB)) && RevivesReserved(Taking(s, a, keyA, b, keyB), Applied(Slot(a, s)))
  {
    hide FirstClear, WithBit, Admitted;
  }

  /** One account connects and leaves, the next one reserves its address, then the first one's late report arrives:
      the report that CacheSafety excludes, and it does break safety. */
  lemma LateReportIsReached(s: Server, a: Account, keyA: PubKey, b: Account, keyB: PubKey)
    requires a != b
    ensures var ls := Create(s, Ask(a, TIER_FREE, keyA)) + [Delete(Slot(a, s)), RunRelease(0)] +
                      [Begin(s, Ask(b, TIER_FREE, keyB)), Allocate(s), Check(s)];
      var st := Run(INITIAL, ls);
      Safe(st) && RevivesReserved(st, Applied(Slot(a, s))) && !Safe(Step(st, Applied(Slot(a, s))))
  {
    hide Run, Step, Safe, RevivesReserved, Taking, Vacated, Connected, Create;
    var create, leave := Create(s, Ask(a, TIER_FREE, keyA)), [Delete(Slot(a, s)), RunRelease(0)];
    var reserve := [Begin(s, Ask(b, TIER_FREE, keyB)), Allocate(s), Check(s)];
    FirstConnects(s, a, TIER_FREE, keyA);
    ThenLeaves(s, a, keyA);
    NextReserves(s, a, keyA, b, keyB);
    RunConcat(INITIAL, create, leave);
    RunConcat(INITIAL, create + leave, reserve);
    TakingIsSafe(s, a, keyA, b, keyB);
    StepSafe(Taking(s, a, keyA, b, keyB), Applied(Slot(a, s)));
  }

  // ---- the delete that overtakes a create ----

  // Three accounts on one server; the first one reconnects with a new key.
  datatype Cast = Cast(s: Server, a: Account, b: Account, c: Account, first: PubKey, second: PubKey, key: PubKey)

  type Scene = x: Cast | x.a != x.b && x.b != x.c && x.a != x.c && x.first != x.second
    witness Cast("", "a", "b", "c", "first", "second", "key")

  lemma NoDevices(rows: Rows, a: Account)
    requires forall k :: k in rows ==> k.account != a
    ensures PeersOf(rows, a) == {}
  {
  }

  // A reconnection on Premium draws its new address, then its old row is deleted.
  function Overtaken(x: Scene): seq<Label> {
    Create(x.s, Ask(x.a, TIER_PREMIUM, x.first)) +
    [Begin(x.s, Ask(x.a, TIER_PREMIUM, x.second)), Allocate(x.s), Check(x.s)] +
    [Delete(Slot(x.a, x.s)), Upsert(x.s)]
  }

  // The reconnection has drawn its new address.
  function Reconnecting(x: Scene): State {
    var f := Flight(Ask(x.a, TIER_PREMIUM, x.second), Some(Peer(0, x.first, 2, Pending)), Holding(3));
    Connected(x.s, x.a, x.first).(pools := map[x.s := [true, true]], flights := map[x.s := f])
  }

  lemma ReconnectIsAdmitted(x: Scene)
    ensures Admitted(Connected(x.s, x.a, x.first).rows, Ask(x.a, TIER_PREMIUM, x.second))
    ensures FirstClear([true]) == 1 && !HostTaken(Connected(x.s, x.a, x.first).rows, x.s, 3)
  {
    hide Admitted, FirstClear;
    assert PeersOf(Connected(x.s, x.a, x.first).rows, x.a) == {Slot(x.a, x.s)};
    AskIsAdmitted(Connected(x.s, x.a, x.first).rows, x.a, TIER_PREMIUM, x.second);
    FirstClearIs([true], 1);
  }

  lemma SecondBit()
    ensures WithBit([true], 1, true) == [true, true]
  {
  }

  lemma ReservedAgain(x: Scene)
    ensures Reserving(Connected(x.s, x.a, x.first), x.s, Ask(x.a, TIER_PREMIUM, x.second), 3) == Reconnecting(x)
  {
    hide FirstClear, WithBit;
    SecondBit();
  }

  lemma Reconnects(x: Scene)
    ensures Run(Connected(x.s, x.a, x.first),
                [Begin(x.s, Ask(x.a, TIER_PREMIUM, x.second)), Allocate(x.s), Check(x.s)]) == Reconnecting(x)
  {
    hide Run, Step, Admitted, FirstClear, HostTaken, Reserving, Reconnecting, Ask;
    ReconnectIsAdmitted(x);
    ReservedAgain(x);
    ReservesAddress(Connected(x.s, x.a, x.first), x.s, Ask(x.a, TIER_PREMIUM, x.second), 3);
  }

  // The row is live at its new address, and the old one is to be released twice.
  function ReleasedTwice(x: Scene): State {
    State(map[Slot(x.a, x.s) := Peer(0, x.second, 3, Pending)], map[x.s := [true, true]], map[],
          [Release(x.s, 2), Release(x.s, 2)], 1)
  }

  // The old row is gone while the create still means to supersede it.
  function Gone(x: Scene): State {
    Reconnecting(x).(rows := map[Slot(x.a, x.s) := Peer(0, x.first, 2, Removed)], releases := [Release(x.s, 2)])
  }

  lemma OldRowGoes(x: Scene)
    ensures Step(Reconnecting(x), Delete(Slot(x.a, x.s))) == Gone(x)
  {
    hide FirstClear;
    assert Reconnecting(x).rows == map[Slot(x.a, x.s) := Peer(0, x.first, 2, Pending)];
  }

  lemma CreateGoesOn(x: Scene)
    ensures Step(Gone(x), Upsert(x.s)) == ReleasedTwice(x)
  {
    hide FirstClear, WithBit;
    assert !IndexRefuses(Gone(x).rows, Slot(x.a, x.s), 3);
    assert Gone(x).flights - {x.s} == map[];
  }

  lemma OvertakenRun(x: Scene)
    ensures Run(INITIAL, Overtaken(x)) == ReleasedTwice(x)
  {
    hide Run, Step, Create, Connected, Reconnecting, Gone, ReleasedTwice;
    var create := Create(x.s, Ask(x.a, TIER_PREMIUM, x.first));
    var draw := [Begin(x.s, Ask(x.a, TIER_PREMIUM, x.second)), Allocate(x.s), Check(x.s)];
    FirstConnects(x.s, x.a, TIER_PREMIUM, x.first);
    Reconnects(x);
    OldRowGoes(x);
    CreateGoesOn(x);
    RunTwo(Reconnecting(x), Delete(Slot(x.a, x.s)), Upsert(x.s));
    RunConcat(INITIAL, create, draw);
    RunConcat(INITIAL, create + draw, [Delete(Slot(x.a, x.s)), Upsert(x.s)]);
  }

  // The first release frees the old address, another account takes it, the second one unmarks it under that account.
  function Freed(x: Scene): State {
    ReleasedTwice(x).(pools := map[x.s := [false, true]], releases := [Release(x.s, 2)])
  }

  function Taken(x: Scene): State {
    State(map[Slot(x.a, x.s) := Peer(0, x.second, 3, Pending), Slot(x.b, x.s) := Peer(1, x.key, 2, Pending)],
          map[x.s := [true, true]], map[], [Release(x.s, 2)], 2)
  }

  function Unmarked(x: Scene): State {
    Taken(x).(pools := map[x.s := [false, true]], releases := [])
  }

  lemma LowBit()
    ensures WithBit([true, true], 0, false) == [false, true] && WithBit([false, true], 0, true) == [true, true]
    ensures FirstClear([false, true]) == 0
  {
    FirstClearIs([false, true], 0);
  }

  lemma FirstRelease(x: Scene)
    ensures Step(ReleasedTwice(x), RunRelease(0)) == Freed(x)
  {
    hide FirstClear, WithBit;
    LowBit();
    assert DropAt([Release(x.s, 2), Release(x.s, 2)], 0) == [Release(x.s, 2)];
  }

  lemma CreatedIsTaken(x: Scene)
    ensures Created(Freed(x), x.s, Ask(x.b, TIER_FREE, x.key), 2) == Taken(x)
  {
    hide FirstClear, WithBit;
    LowBit();
  }

  lemma OtherTakes(x: Scene)
    ensures Run(Freed(x), Create(x.s, Ask(x.b, TIER_FREE, x.key))) == Taken(x)
  {
    NoDevices(Freed(x).rows, x.b);
    AskIsAdmitted(Freed(x).rows, x.b, TIER_FREE, x.key);
    assert !HostTaken(Freed(x).rows, x.s, 2);
    hide Run, Step, Admitted, FirstClear, HostTaken, Create, Created, Taken;
    LowBit();
    CreateAlone(Freed(x), x.s, Ask(x.b, TIER_FREE, x.key), 2);
    CreatedIsTaken(x);
  }

  lemma SecondRelease(x: Scene)
    ensures Step(Taken(x), RunRelease(0)) == Unmarked(x)
  {
    hide FirstClear, WithBit;
    LowBit();
    assert DropAt([Release(x.s, 2)], 0) == [];
  }

  // The third account's create, before its first candidate.
  function Searching(x: Scene): State {
    Unmarked(x).(flights := map[x.s := Flight(Ask(x.c, TIER_FREE, x.key), None, Scanning(0))])
  }

  lemma ThirdBegins(x: Scene)
    ensures Step(Unmarked(x), Begin(x.s, Ask(x.c, TIER_FREE, x.key))) == Searching(x)
  {
    hide Admitted, FirstClear, PeersOf, WithBit;
    NoDevices(Unmarked(x).rows, x.c);
    AskIsAdmitted(Unmarked(x).rows, x.c, TIER_FREE, x.key);
  }

  lemma ThirdFails(x: Scene)
    ensures var drawn := Step(Searching(x), Allocate(x.s));
      x.s in drawn.flights && Step(drawn, Check(x.s)) == WithPhase(drawn, x.s, Scanning(1))
  {
    hide FirstClear, WithBit;
    LowBit();
    assert Holds(Unmarked(x).rows, Slot(x.b, x.s), x.s, 2);
  }

  function Afterwards(x: Scene): seq<Label> {
    [RunRelease(0)] + Create(x.s, Ask(x.b, TIER_FREE, x.key)) + [RunRelease(0)]
  }

  /** Reached from the empty state without cache loss and without late report: after the overtaking delete, a create's
      first candidate is a live address, and it needs a second attempt. */
  lemma SecondAttemptIsReached(x: Scene)
    ensures var st := Run(INITIAL, Overtaken(x) + Afterwards(x) + [Begin(x.s, Ask(x.c, TIER_FREE, x.key))]);
      var drawn := Step(st, Allocate(x.s));
      && x.s in st.flights && st.flights[x.s].phase == Scanning(0)
      && x.s in drawn.flights && Step(drawn, Check(x.s)) == WithPhase(drawn, x.s, Scanning(1))
  {
    var create := Create(x.s, Ask(x.b, TIER_FREE, x.key));
    assert x.s in Searching(x).flights && Searching(x).flights[x.s].phase == Scanning(0);
    hide Run, Step, Create, Overtaken, ReleasedTwice, Freed, Taken, Unmarked, Searching;
    OvertakenRun(x);
    FirstRelease(x);
    OtherTakes(x);
    SecondRelease(x);
    ThirdBegins(x);
    ThirdFails(x);
    RunOne(ReleasedTwice(x), RunRelease(0));
    RunConcat(ReleasedTwice(x), [RunRelease(0)], create);
    RunThen(ReleasedTwice(x), [RunRelease(0)] + create, RunRelease(0));
    RunConcat(INITIAL, Overtaken(x), Afterwards(x));
    RunThen(INITIAL, Overtaken(x) + Afterwards(x), Begin(x.s, Ask(x.c, TIER_FREE, x.key)));
  }

  lemma ReconnectingIsExact(x: Scene)
    ensures Exact(Reconnecting(x))
  {
    hide FirstClear, WithBit;
  }

  /** The overtaking delete is the step that disturbs: the state before it is exact, the one after it is not. */
  lemma OvertakingDisturbs(x: Scene)
    ensures Exact(Reconnecting(x)) && Disturbs(Reconnecting(x), Delete(Slot(x.a, x.s))) && !Exact(Gone(x))
  {
    ReconnectingIsExact(x);
    StepExact(Reconnecting(x), Delete(Slot(x.a, x.s)));
    OldRowGoes(x);
  }

  // ---- the sixth device ----

  // The account has n devices, one on every server in use, and nothing else happened.
  ghost predicate Devices(st: State, a: Account, n: nat) {
    && st.flights == map[]
    && (forall k :: k in st.rows ==> k.account == a)
    && (forall s :: s in st.pools ==> Slot(a, s) in st.rows)
    && |PeersOf(st.rows, a)| == n
  }

  // The account has a live row on each of the servers, and no row elsewhere.
  ghost predicate Everywhere(st: State, a: Account, servers: seq<Server>) {
    && (forall k :: k in st.rows ==> k.server in servers)
    && (forall s :: s in servers ==> LiveSlot(st.rows, Slot(a, s)))
  }

  predicate Distinct(servers: seq<Server>) {
    forall i, j :: 0 <= i < j < |servers| ==> servers[i] != servers[j]
  }

  function CreateAll(a: Account, key: PubKey, servers: seq<Server>): seq<Label> {
    if servers == [] then []
    else
      var n := |servers| - 1;
      CreateAll(a, key, servers[..n]) + Create(servers[n], Ask(a, TIER_PREMIUM, key))
  }

  lemma CreatedRow(st: State, s: Server, r: Request)
    requires Slot(r.account, s) !in st.rows
    ensures var next := Created(st, s, r, 2);
      && next.rows == st.rows[Slot(r.account, s) := Peer(st.nextId, r.pubkey, 2, Pending)]
      && next.flights == st.flights && next.pools.Keys == st.pools.Keys + {s}
      && PeersOf(next.rows, r.account) == PeersOf(st.rows, r.account) + {Slot(r.account, s)}
  {
    hide WithBit, FirstClear;
  }

  // A create on a server that has not been used.
  lemma CreateOnNewServer(st: State, s: Server, r: Request)
    requires s !in st.flights && s !in st.pools && Admitted(st.rows, r)
    requires forall k :: k in st.rows ==> k.server != s
    ensures var next := Run(st, Create(s, r));
      && next.rows == st.rows[Slot(r.account, s) := Peer(st.nextId, r.pubkey, 2, Pending)]
      && next.flights == st.flights && next.pools.Keys == st.pools.Keys + {s}
      && PeersOf(next.rows, r.account) == PeersOf(st.rows, r.account) + {Slot(r.account, s)}
  {
    hide Run, Step, Create, Created, Admitted, FirstClear, WithBit, PeersOf;
    FirstBit();
    assert Pool(st, s) == [] && Slot(r.account, s) !in st.rows && !HostTaken(st.rows, s, 2);
    CreateAlone(st, s, r, 2);
    CreatedRow(st, s, r);
  }

  lemma DeviceAdded(st: State, next: State, a: Account, p: Peer, n: nat, s: Server)
    requires Devices(st, a, n) && Slot(a, s) !in st.rows
    requires next.rows == st.rows[Slot(a, s) := p] && next.flights == st.flights
    requires next.pools.Keys == st.pools.Keys + {s} && PeersOf(next.rows, a) == PeersOf(st.rows, a) + {Slot(a, s)}
    ensures Devices(next, a, n + 1)
  {
    assert Slot(a, s) !in PeersOf(st.rows, a);
    hide PeersOf;
    forall t | t in next.pools ensures Slot(a, t) in next.rows {
      assert t in next.pools.Keys;
    }
  }

  lemma OneMoreDevice(st: State, a: Account, key: PubKey, n: nat, s: Server)
    requires Devices(st, a, n) && n < PREMIUM_MAX_DEVICES && Slot(a, s) !in st.rows
    ensures var next := Run(st, Create(s, Ask(a, TIER_PREMIUM, key)));
      Devices(next, a, n + 1) && next.rows == st.rows[Slot(a, s) := Peer(st.nextId, key, 2, Pending)]
  {
    hide Run, Step, Create, Admitted, PeersOf;
    assert s !in st.flights && s !in st.pools;
    forall k | k in st.rows ensures k.server != s {
      assert k == Slot(a, k.server);
    }
    AskIsAdmitted(st.rows, a, TIER_PREMIUM, key);
    var r := Ask(a, TIER_PREMIUM, key);
    assert r.account == a && r.pubkey == key;
    hide Ask;
    CreateOnNewServer(st, s, r);
    DeviceAdded(st, Run(st, Create(s, r)), a, Peer(st.nextId, key, 2, Pending), n, s);
  }

  lemma EverywhereNext(st: State, next: State, a: Account, key: PubKey, servers: seq<Server>, s: Server)
    requires Everywhere(st, a, servers) && next.rows == st.rows[Slot(a, s) := Peer(st.nextId, key, 2, Pending)]
    ensures Everywhere(next, a, servers + [s])
  {
  }

  lemma DistinctPrefix(servers: seq<Server>)
    requires Distinct(servers) && servers != []
    ensures Distinct(servers[..|servers| - 1]) && servers[|servers| - 1] !in servers[..|servers| - 1]
  {
  }

  lemma NotThereYet(st: State, a: Account, servers: seq<Server>, s: Server)
    requires Everywhere(st, a, servers) && s !in servers
    ensures Slot(a, s) !in st.rows
  {
  }

  lemma NobodyConnected(a: Account)
    ensures Devices(INITIAL, a, 0) && Everywhere(INITIAL, a, [])
  {
    NoDevices(INITIAL.rows, a);
  }

  lemma {:induction false} ConnectsToAll(a: Account, key: PubKey, servers: seq<Server>)
    requires Distinct(servers) && |servers| <= PREMIUM_MAX_DEVICES
    ensures Devices(Run(INITIAL, CreateAll(a, key, servers)), a, |servers|)
    ensures Everywhere(Run(INITIAL, CreateAll(a, key, servers)), a, servers)
  {
    hide Run, Step, Create, Devices, Everywhere, Distinct;
    if servers == [] {
      RunNothing(INITIAL);
      NobodyConnected(a);
    } else {
      var n := |servers| - 1;
      var init := servers[..n];
      DistinctPrefix(servers);
      ConnectsToAll(a, key, init);
      var before := Run(INITIAL, CreateAll(a, key, init));
      NotThereYet(before, a, init, servers[n]);
      OneMoreDevice(before, a, key, n, servers[n]);
      RunConcat(INITIAL, CreateAll(a, key, init), Create(servers[n], Ask(a, TIER_PREMIUM, key)));
      EverywhereNext(before, Run(INITIAL, CreateAll(a, key, servers)), a, key, init, servers[n]);
      assert init + [servers[n]] == servers;
    }
  }

  // Five devices, one of them removed and replaced on a sixth server.
  function SixServers(a: Account, key: PubKey, servers: seq<Server>): seq<Label>
    requires |servers| == 6
  {
    CreateAll(a, key, servers[..5]) + [Delete(Slot(a, servers[0]))] + Create(servers[5], Ask(a, TIER_PREMIUM, key))
  }

  lemma RemovesOne(st: State, a: Account, n: nat, k: Slot)
    requires Devices(st, a, n) && n > 0 && LiveSlot(st.rows, k) && k.account == a
    ensures var next := Step(st, Delete(k));
      Devices(next, a, n - 1) && next.rows == st.rows[k := st.rows[k].(status := Removed)]
  {
    hide FirstClear, WithBit;
    assert k in PeersOf(st.rows, a);
    assert PeersOf(Step(st, Delete(k)).rows, a) == PeersOf(st.rows, a) - {k};
  }

  lemma ReportOverflows(st: State, a: Account, k: Slot)
    requires Devices(st, a, 5) && k in st.rows && !Live(st.rows[k])
    ensures DeviceCaps.Overflows(st, Applied(k)) && DeviceCaps.Devices(Step(st, Applied(k)), a) == 6
  {
    hide Step, PeersOf;
    forall j | j in st.rows && j != k ensures j.server != k.server {
      assert j == Slot(a, j.server) && k == Slot(a, k.server);
    }
    assert !IndexRefuses(st.rows, k, st.rows[k].host);
    assert DeviceCaps.Revives(st, Applied(k));
    DeviceCaps.LateReportAddsDevice(st, k, a);
  }

  /** From the empty state: a Premium account connects to five servers, leaves one and connects to a sixth; the late
      report of the one it left gives it a sixth device. */
  lemma SixthDeviceIsReached(a: Account, key: PubKey, servers: seq<Server>)
    requires |servers| == 6 && Distinct(servers)
    ensures var st := Run(INITIAL, SixServers(a, key, servers)); var l := Applied(Slot(a, servers[0]));
      && DeviceCaps.Devices(st, a) == 5 && DeviceCaps.Overflows(st, l)
      && DeviceCaps.Devices(Step(st, l), a) == 6
  {
    hide Run, Step, Create, CreateAll, PeersOf, DeviceCaps.Overflows;
    var k, create := Slot(a, servers[0]), Create(servers[5], Ask(a, TIER_PREMIUM, key));
    var all := CreateAll(a, key, servers[..5]);
    var five := Run(INITIAL, all);
    ConnectsToAll(a, key, servers[..5]);
    assert servers[..5][0] == servers[0] && servers[5] !in servers[..5];
    RemovesOne(five, a, 5, k);
    OneMoreDevice(Step(five, Delete(k)), a, key, 4, servers[5]);
    RunThen(INITIAL, all, Delete(k));
    RunConcat(INITIAL, all + [Delete(k)], create);
    ReportOverflows(Run(INITIAL, SixServers(a, key, servers)), a, k);
  }
}
