/** wg-manager's code over its two stores, each method proved to be a run of the state machine. */
module WgService {
  import opened Text
  import opened AddressPool
  import opened Entitlement
  import opened Provisioning
  import opened TierSync

  class Redis {
    var pools: map<Server, seq<bool>>

    constructor ()
      ensures pools == map[]
    {
      pools := map[];
    }

    function Bits(s: Server): seq<bool>
      reads this
    {
      if s in pools then pools[s] else []
    }

    method SetBit(s: Server, i: nat, v: bool)
      modifies this
      ensures pools == old(pools)[s := WithBit(old(Bits(s)), i, v)]
    {
      pools := pools[s := WithBit(Bits(s), i, v)];
    }

    // BITPOS key 0. Redis answers 0 for a missing key; the caller is ready for -1 as well.
    method BitPos(s: Server) returns (bit: int)
      ensures bit == FirstClear(Bits(s)) || (bit == -1 && Bits(s) == [])
    {
      bit := FirstClear(Bits(s));
      if Bits(s) == [] {
        var negative: bool := *;
        if negative {
          bit := -1;
        }
      }
    }

    method AllocateIP(s: Server) returns (r: Option<Host>)
      modifies this
      ensures r.None? <==> FirstClear(old(Bits(s))) >= POOL_SIZE
      ensures r.None? ==> pools == old(pools)
      ensures r.Some? ==> r.value == FirstClear(old(Bits(s))) + 2
      ensures r.Some? ==> pools == old(pools)[s := WithBit(old(Bits(s)), r.value - 2, true)]
    {
      var bit := BitPos(s);
      if bit < 0 || bit > 253 {
        if bit < 0 {
          bit := 0;
        } else {
          return None;
        }
      }
      SetBit(s, bit, true);
      r := Some(bit + 2);
    }

    method ReleaseIP(s: Server, h: Host)
      modifies this
      ensures pools == old(pools)[s := WithBit(old(Bits(s)), h - 2, false)]
    {
      SetBit(s, h - 2, false);
    }
  }

  class Postgres {
    var rows: Rows
    var nextId: nat

    constructor ()
      ensures rows == map[] && nextId == 0 && Valid()
    {
      rows, nextId := map[], 0;
    }

    // Row identifiers are primary keys.
    ghost predicate Valid()
      reads this
    {
      && (forall j, k :: j in rows && k in rows && rows[j].id == rows[k].id ==> j == k)
      && (forall k :: k in rows ==> rows[k].id < nextId)
    }

    method IsActiveIPAssigned(s: Server, h: Host) returns (inUse: bool)
      ensures inUse <==> exists k :: k in rows && k.server == s && rows[k].host == h && rows[k].status != Removed
      ensures inUse == HostTaken(rows, s, h)
    {
      inUse := exists k :: k in rows && Holds(rows, k, s, h);
    }

    method ListPeersByAccount(a: Account) returns (peers: seq<Slot>)
      ensures |peers| == |PeersOf(rows, a)|
      ensures forall k :: k in peers <==> k in rows && k.account == a && rows[k].status != Removed
    {
      peers := [];
      var rest := PeersOf(rows, a);
      while rest != {}
        invariant rest <= PeersOf(rows, a)
        invariant |peers| + |rest| == |PeersOf(rows, a)|
        invariant forall k :: k in peers <==> k in PeersOf(rows, a) && k !in rest
      {
        var k :| k in rest;
        peers := peers + [k];
        rest := rest - {k};
      }
    }

    // Fails exactly when the unique index on live addresses refuses the row.
    method CreatePeer(k: Slot, key: PubKey, h: Host) returns (ok: bool)
      requires Valid()
      modifies this
      ensures Valid()
      ensures ok <==> !exists other :: other in old(rows) && other != k && other.server == k.server &&
                        old(rows)[other].host == h && old(rows)[other].status != Removed
      ensures ok == !IndexRefuses(old(rows), k, h)
      ensures !ok ==> rows == old(rows) && nextId == old(nextId)
      ensures ok ==> rows == old(rows)[k := Peer(if k in old(rows) then old(rows)[k].id else old(nextId), key, h, Pending)]
      ensures ok ==> nextId == if k in old(rows) then old(nextId) else old(nextId) + 1
    {
      if exists other :: other in rows && other != k && Holds(rows, other, k.server, h) {
        return false;
      }
      if k in rows {
        rows := rows[k := rows[k].(pubkey := key, host := h, status := Pending)];
      } else {
        rows := rows[k := Peer(nextId, key, h, Pending)];
        nextId := nextId + 1;
      }
      ok := true;
    }

    method GetPeer(peerId: nat, a: Account) returns (r: Option<Slot>)
      requires Valid()
      ensures r.Some? ==> r.value in rows && rows[r.value].id == peerId && r.value.account == a
      ensures r.Some? ==> rows[r.value].status != Removed
      ensures r.None? ==> forall k :: k in rows && k.account == a && rows[k].id == peerId ==> rows[k].status == Removed
    {
      if exists k :: k in rows && Live(rows[k]) && rows[k].id == peerId && k.account == a {
        var k :| k in rows && Live(rows[k]) && rows[k].id == peerId && k.account == a;
        r := Some(k);
      } else {
        r := None;
      }
    }

    method DeletePeer(peerId: nat, a: Account) returns (ghost slot: Option<Slot>)
      requires Valid()
      modifies this
      ensures Valid() && nextId == old(nextId)
      ensures slot.Some? ==> slot.value in old(rows) && old(rows)[slot.value].id == peerId && slot.value.account == a
      ensures slot.Some? ==> rows == old(rows)[slot.value := old(rows)[slot.value].(status := Removed)]
      ensures slot.None? ==> rows == old(rows) && forall k :: k in rows && k.account == a ==> rows[k].id != peerId
    {
      slot := None;
      if exists k :: k in rows && rows[k].id == peerId && k.account == a {
        var k :| k in rows && rows[k].id == peerId && k.account == a;
        slot := Some(k);
        rows := rows[k := rows[k].(status := Removed)];
      }
    }

    // Unconditional on the row's status; only the unique index can refuse it.
    method UpdatePeerStatus(peerId: nat) returns (ghost slot: Option<Slot>)
      requires Valid()
      modifies this
      ensures Valid() && nextId == old(nextId)
      ensures slot.Some? ==> slot.value in old(rows) && old(rows)[slot.value].id == peerId
      ensures slot.None? ==> rows == old(rows) && forall k :: k in rows ==> rows[k].id != peerId
      ensures slot.Some? && IndexRefuses(old(rows), slot.value, old(rows)[slot.value].host) ==> rows == old(rows)
      ensures slot.Some? && !IndexRefuses(old(rows), slot.value, old(rows)[slot.value].host) ==>
        rows == old(rows)[slot.value := old(rows)[slot.value].(status := Active)]
    {
      slot := None;
      if exists k :: k in rows && rows[k].id == peerId {
        var k :| k in rows && rows[k].id == peerId;
        slot := Some(k);
        if !(exists other :: other in rows && other != k && Holds(rows, other, k.server, rows[k].host)) {
          rows := rows[k := rows[k].(status := Active)];
        }
      }
    }
  }

  // Calls that can fail without the stores being at fault, and where CreatePeer meets them.
  datatype Fault = NoFault | LookupFault(attempt: nat) | KeyFault

  datatype CreateResult =
    | Created(host: Host)
    | Denied
    | NoAddress
    | Failed

  lemma TakenIsMember(rows: Rows, s: Server, h: Host)
    ensures h in TakenHosts(rows, s) <==> HostTaken(rows, s, h)
  {
    if h in TakenHosts(rows, s) {
      var k :| k in rows && k.server == s && Live(rows[k]) && rows[k].host == h;
      assert Holds(rows, k, s, h);
    }
  }

  // The labels of a scan from its given attempt on.
  ghost function ScanTrace(s: Server, bits: seq<bool>, taken: set<Host>, attempt: nat, failAt: nat): seq<Label>
    decreases POOL_SIZE - attempt
  {
    var bit := FirstClear(bits);
    if attempt >= POOL_SIZE || bit >= POOL_SIZE then [Allocate(s)]
    else if attempt == failAt then [Allocate(s), Abandon(s)]
    else if bit + 2 !in taken then [Allocate(s), Check(s)]
    else [Allocate(s), Check(s)] + ScanTrace(s, WithBit(bits, bit, true), taken, attempt + 1, failAt)
  }

  // An undisturbed delete: the row is removed, then its address is given back.
  lemma DeletedAndReleased(st: State, k: Slot)
    requires LiveSlot(st.rows, k)
    ensures Run(st, [Delete(k), RunRelease(|st.releases|)]) ==
      SetBit(st.(rows := st.rows[k := st.rows[k].(status := Removed)]), k.server, st.rows[k].host, false)
  {
    RunTwo(st, Delete(k), RunRelease(|st.releases|));
    assert DropAt(st.releases + [Release(k.server, st.rows[k].host)], |st.releases|) == st.releases;
  }

  lemma ReservedIsNotTaken(bits: seq<bool>, rows: Rows, s: Server, h: Host, after: seq<bool>)
    requires LeastFree(bits, TakenHosts(rows, s), Reserved(h), after)
    ensures !HostTaken(rows, s, h)
  {
    TakenIsMember(rows, s, h);
  }

  lemma EmptyPoolStartsFree()
    ensures FirstClear([]) == 0
  {
  }

  lemma Overwritten(now: map<Server, seq<bool>>, before: map<Server, seq<bool>>, s: Server)
    requires now[s := []] == before[s := []] && s in now
    ensures now == before[s := now[s]]
  {
    assert now == now[s := []][s := now[s]];
  }

  // What a scan leaves behind.
  ghost function Scanned(st: State, s: Server, f: Flight, r: Reservation, bits: seq<bool>): State {
    st.(pools := st.pools[s := bits],
        flights := if r.Reserved? then map[s := f.(phase := Holding(r.host))] else map[])
  }

  lemma AllocateAloft(st: State, s: Server, attempt: nat)
    requires s in st.flights && st.flights == map[s := st.flights[s]] && st.flights[s].phase == Scanning(attempt)
    ensures attempt >= POOL_SIZE || FirstClear(Pool(st, s)) >= POOL_SIZE ==> Step(st, Allocate(s)) == st.(flights := map[])
    ensures attempt < POOL_SIZE && FirstClear(Pool(st, s)) < POOL_SIZE ==>
      Step(st, Allocate(s)) ==
      st.(pools := st.pools[s := WithBit(Pool(st, s), FirstClear(Pool(st, s)), true)],
          flights := map[s := st.flights[s].(phase := Checking(attempt, FirstClear(Pool(st, s)) + 2))])
  {
  }

  lemma CheckAloft(st: State, s: Server)
    requires s in st.flights && st.flights == map[s := st.flights[s]] && st.flights[s].phase.Checking?
    ensures Step(st, Check(s)) == st.(flights := map[s := st.flights[s].(phase :=
      var p := st.flights[s].phase;
      if HostTaken(st.rows, s, p.candidate) then Scanning(p.attempt + 1) else Holding(p.candidate))])
  {
  }

  // One turn that does not end the scan.
  lemma TurnAloft(st: State, s: Server, attempt: nat)
    requires s in st.flights && st.flights == map[s := st.flights[s]] && st.flights[s].phase == Scanning(attempt)
    requires attempt < POOL_SIZE && FirstClear(Pool(st, s)) < POOL_SIZE
    ensures var bit := FirstClear(Pool(st, s)); var f := st.flights[s];
      Run(st, [Allocate(s), Check(s)]) ==
        st.(pools := st.pools[s := WithBit(Pool(st, s), bit, true)],
            flights := map[s := f.(phase :=
              if bit + 2 in TakenHosts(st.rows, s) then Scanning(attempt + 1) else Holding(bit + 2))])
  {
    hide Run, Step;
    var h: Host := FirstClear(Pool(st, s)) + 2;
    AllocateAloft(st, s, attempt);
    CheckAloft(Step(st, Allocate(s)), s);
    RunTwo(st, Allocate(s), Check(s));
    TakenIsMember(st.rows, s, h);
  }

  lemma AbandonAloft(st: State, s: Server, h: Host)
    requires s in st.flights && st.flights == map[s := st.flights[s]]
    requires st.flights[s].phase == Holding(h) || exists i: nat :: st.flights[s].phase == Checking(i, h)
    ensures Step(st, Abandon(s)) == st.(pools := st.pools[s := WithBit(Pool(st, s), h - 2, false)], flights := map[])
  {
  }

  lemma FailedTurnAloft(st: State, s: Server, attempt: nat)
    requires s in st.flights && st.flights == map[s := st.flights[s]] && st.flights[s].phase == Scanning(attempt)
    requires attempt < POOL_SIZE && FirstClear(Pool(st, s)) < POOL_SIZE
    ensures var bit := FirstClear(Pool(st, s));
      Run(st, [Allocate(s), Abandon(s)]) ==
        st.(pools := st.pools[s := WithBit(WithBit(Pool(st, s), bit, true), bit, false)], flights := map[])
  {
    hide Run, Step;
    AllocateAloft(st, s, attempt);
    AbandonAloft(Step(st, Allocate(s)), s, FirstClear(Pool(st, s)) + 2);
    RunTwo(st, Allocate(s), Abandon(s));
  }

  /** Reserve is a run of the state machine: the scan of the create in flight on s. */
  lemma {:induction false} ScanIsRun(st: State, s: Server, attempt: nat, failAt: nat)
    requires s in st.flights && st.flights == map[s := st.flights[s]] && st.flights[s].phase == Scanning(attempt)
    requires s in st.pools || attempt == 0
    ensures var bits := Pool(st, s); var taken := TakenHosts(st.rows, s);
      Run(st, ScanTrace(s, bits, taken, attempt, failAt)) ==
        Scanned(st, s, st.flights[s], Reserve(bits, taken, attempt, failAt).0, Reserve(bits, taken, attempt, failAt).1)
    decreases POOL_SIZE - attempt
  {
    hide Run, Step;
    var f, bits, taken := st.flights[s], Pool(st, s), TakenHosts(st.rows, s);
    var bit := FirstClear(bits);
    if attempt >= POOL_SIZE || bit >= POOL_SIZE {
      RunOne(st, Allocate(s));
      AllocateAloft(st, s, attempt);
      assert st.pools[s := bits] == st.pools;
    } else if attempt == failAt {
      FailedTurnAloft(st, s, attempt);
    } else {
      TurnAloft(st, s, attempt);
      if bit + 2 in taken {
        var next := Run(st, [Allocate(s), Check(s)]);
        var marked := WithBit(bits, bit, true);
        var (r, after) := Reserve(marked, taken, attempt + 1, failAt);
        assert Pool(next, s) == marked && TakenHosts(next.rows, s) == taken;
        ScanIsRun(next, s, attempt + 1, failAt);
        RunConcat(st, [Allocate(s), Check(s)], ScanTrace(s, marked, taken, attempt + 1, failAt));
        assert Scanned(next, s, next.flights[s], r, after) == Scanned(st, s, f, r, after) by {
          assert next.pools[s := after] == st.pools[s := after];
        }
      }
    }
  }

  lemma BeginAloft(st: State, s: Server, r: Request)
    requires st.flights == map[] && Admitted(st.rows, r)
    ensures Run(st, [Begin(s, r)]) ==
      st.(flights := map[s := Flight(r, Superseded(st.rows, Slot(r.account, s)), Scanning(0))])
  {
    RunThen(st, [], Begin(s, r));
    assert [] + [Begin(s, r)] == [Begin(s, r)];
  }

  lemma UpsertAloft(st: State, s: Server, h: Host)
    requires s in st.flights && st.flights == map[s := st.flights[s]] && st.flights[s].phase == Holding(h)
    requires !HostTaken(st.rows, s, h)
    ensures var f := st.flights[s]; var k := Slot(f.request.account, s);
      && !IndexRefuses(st.rows, k, h)
      && Step(st, Upsert(s)) ==
           UpsertRow(st, k, f.request.pubkey, h).(releases := st.releases + SupersededRelease(f, s, h), flights := map[])
  {
  }

  class Service {
    const redis: Redis
    const postgres: Postgres
    const tierCache: TierCache?
    var releases: seq<Release>

    constructor (tierCache: TierCache?)
      ensures Valid() && Abs() == INITIAL && this.tierCache == tierCache
      ensures fresh(redis) && fresh(postgres)
    {
      redis := new Redis();
      postgres := new Postgres();
      this.tierCache := tierCache;
      releases := [];
    }

    ghost predicate Valid()
      reads this, postgres
    {
      postgres.Valid()
    }

    // The stores, with the creates in flight that the caller knows of.
    ghost function Snapshot(flights: map<Server, Flight>): State
      reads this, redis, postgres
    {
      State(postgres.rows, redis.pools, flights, releases, postgres.nextId)
    }

    ghost function Abs(): State
      reads this, redis, postgres
    {
      Snapshot(map[])
    }

    ghost function Resolved(account: Account, jwtTier: string): string
      reads this, tierCache
    {
      if tierCache == null then NormalizeTier(jwtTier) else ResolveTier(tierCache.data, account, jwtTier)
    }

    method Resolve(account: Account, jwtTier: string) returns (tier: string)
      ensures tier == if tierCache == null || account !in tierCache.data then NormalizeTier(jwtTier)
                      else tierCache.data[account]
      ensures tier == Resolved(account, jwtTier)
    {
      tier := NormalizeTier(jwtTier);
      if tierCache == null {
        return;
      }
      var cached := tierCache.Lookup(account);
      if cached.Some? {
        tier := cached.value;
      }
    }

    method FindReplaced(existing: seq<Slot>, account: Account, s: Server) returns (replaced: Option<Peer>)
      requires forall k :: k in existing <==>
        k in postgres.rows && k.account == account && postgres.rows[k].status != Removed
      ensures replaced == Superseded(postgres.rows, Slot(account, s))
    {
      var i := 0;
      while i < |existing|
        invariant 0 <= i <= |existing|
        invariant forall j :: 0 <= j < i ==> existing[j].server != s
      {
        assert existing[i] in existing;
        if existing[i].server == s {
          return Some(postgres.rows[existing[i]]);
        }
        i := i + 1;
      }
      assert Slot(account, s) !in existing;
      replaced := None;
    }

    // One turn of the reconciliation loop: None when the candidate turned out to be live.
    method TryCandidate(s: Server, lookupFails: bool) returns (r: Option<Reservation>)
      modifies redis
      ensures var bits := old(redis.Bits(s)); var bit := FirstClear(bits);
        if bit >= POOL_SIZE then r == Some(Exhausted) && redis.pools == old(redis.pools)
        else if lookupFails then
          r == Some(LookupFailed) && redis.pools == old(redis.pools)[s := WithBit(WithBit(bits, bit, true), bit, false)]
        else
          && r == (if bit + 2 in TakenHosts(postgres.rows, s) then None else Some(Reserved(bit + 2)))
          && redis.pools == old(redis.pools)[s := WithBit(bits, bit, true)]
    {
      var candidate := redis.AllocateIP(s);
      if candidate.None? {
        return Some(Exhausted);
      }
      if lookupFails {
        redis.ReleaseIP(s, candidate.value);
        return Some(LookupFailed);
      }
      var used := postgres.IsActiveIPAssigned(s, candidate.value);
      TakenIsMember(postgres.rows, s, candidate.value);
      r := if used then None else Some(Reserved(candidate.value));
    }

    // The reconciliation loop; the lookup of attempt failAt fails, if that attempt is reached.
    method ReserveAddress(s: Server, failAt: nat) returns (r: Reservation)
      modifies redis
      ensures (r, redis.Bits(s)) == Reserve(old(redis.Bits(s)), TakenHosts(postgres.rows, s), 0, failAt)
      ensures redis.pools == old(redis.pools)[s := redis.Bits(s)]
    {
      hide FirstClear, WithBit, TakenHosts;
      ghost var bits, taken := redis.Bits(s), TakenHosts(postgres.rows, s);
      var attempts := 0;
      while attempts < 254
        invariant 0 <= attempts <= 254
        invariant Reserve(bits, taken, 0, failAt) == Reserve(redis.Bits(s), taken, attempts, failAt)
        invariant attempts > 0 ==> s in redis.pools
        invariant redis.pools[s := []] == old(redis.pools)[s := []]
      {
        var tried := TryCandidate(s, attempts == failAt);
        if tried.Some? {
          EmptyPoolStartsFree();
          Overwritten(redis.pools, old(redis.pools), s);
          return tried.value;
        }
        attempts := attempts + 1;
      }
      Overwritten(redis.pools, old(redis.pools), s);
      r := Exhausted;
    }

    // The end of a create that holds its address: the new key, the upsert and the pending release.
    method Commit(account: Account, key: PubKey, s: Server, host: Host, replaced: Option<Peer>, keyFails: bool,
                  ghost flight: Flight)
      returns (ok: bool)
      requires Valid() && !HostTaken(postgres.rows, s, host)
      requires flight.request.account == account && flight.request.pubkey == key && flight.replaced == replaced
      requires flight.phase == Holding(host)
      modifies this, redis, postgres
      ensures Valid() && ok == !keyFails
      ensures Abs() == Step(old(Snapshot(map[s := flight])), if ok then Upsert(s) else Abandon(s))
      ensures ok ==> redis.pools == old(redis.pools)
      ensures ok ==> postgres.rows == UpsertRow(old(Abs()), Slot(account, s), key, host).rows
      ensures ok ==> releases == old(releases) + SupersededRelease(flight, s, host)
      ensures !ok ==> postgres.rows == old(postgres.rows) && releases == old(releases)
      ensures !ok ==> redis.Bits(s) == WithBit(old(redis.Bits(s)), host - 2, false)
    {
      ghost var before := Snapshot(map[s := flight]);
      if keyFails {
        AbandonAloft(before, s, host);
        redis.ReleaseIP(s, host);
        return false;
      }
      UpsertAloft(before, s, host);
      var _ := postgres.CreatePeer(Slot(account, s), key, host);
      if replaced.Some? && replaced.value.pubkey != key && replaced.value.host != host {
        releases := releases + [Release(s, replaced.value.host)];
      }
      ok := true;
    }

    // Everything after the entitlement checks: reserve an address, then write the row.
    method Provision(account: Account, key: PubKey, s: Server, replaced: Option<Peer>, fault: Fault, ghost flight: Flight)
      returns (r: CreateResult, ghost trace: seq<Label>)
      requires Valid() && flight.phase == Scanning(0)
      requires flight.request.account == account && flight.request.pubkey == key && flight.replaced == replaced
      modifies this, redis, postgres
      ensures Valid() && !r.Denied?
      ensures Abs() == Run(old(Snapshot(map[s := flight])), trace)
      ensures !r.Created? ==> postgres.rows == old(postgres.rows) && releases == old(releases)
      ensures r.Created? ==>
        LeastFree(old(redis.Bits(s)), TakenHosts(old(postgres.rows), s), Reserved(r.host), redis.Bits(s))
      ensures r.Created? ==> postgres.rows == UpsertRow(old(Abs()), Slot(account, s), key, r.host).rows
      ensures r.Created? ==> releases == old(releases) + SupersededRelease(flight, s, r.host)
      ensures r.NoAddress? ==> LeastFree(old(redis.Bits(s)), TakenHosts(old(postgres.rows), s), Exhausted, redis.Bits(s))
      ensures r.Failed? ==> fault != NoFault
      ensures r.Failed? ==> KeepsFree(old(redis.Bits(s)), TakenHosts(old(postgres.rows), s), redis.Bits(s))
    {
      hide Run, Step, Reserve, ScanTrace, FirstClear, WithBit, HostTaken, LeastFree, KeepsFree, CandidateReturned;
      ghost var bits, taken := redis.Bits(s), TakenHosts(postgres.rows, s);
      ghost var aloft := Snapshot(map[s := flight]);
      var failAt := if fault.LookupFault? then fault.attempt else 254;
      ScanIsRun(aloft, s, 0, failAt);
      var reservation := ReserveAddress(s, failAt);
      trace := ScanTrace(s, bits, taken, 0, failAt);
      if reservation.LookupFailed? {
        ReserveReturnsCandidate(bits, taken, 0, failAt);
        ReturnedKeepsFree(bits, taken, redis.Bits(s));
        return Failed, trace;
      }
      ReserveFindsLeastFree(bits, taken, 0, failAt);
      if reservation.Exhausted? {
        return NoAddress, trace;
      }
      var host := reservation.host;
      ReservedIsNotTaken(bits, postgres.rows, s, host, redis.Bits(s));
      ReleasedKeepsFree(bits, taken, host, redis.Bits(s));
      var ok := Commit(account, key, s, host, replaced, fault.KeyFault?, flight.(phase := Holding(host)));
      RunThen(aloft, trace, if ok then Upsert(s) else Abandon(s));
      trace := trace + [if ok then Upsert(s) else Abandon(s)];
      r := if ok then Created(host) else Failed;
    }

    /** CreatePeer on the server the scheduler selected. Its whole effect is a run of the state machine;
        the address is the least host that is neither marked nor live. */
    method CreatePeer(account: Account, jwtTier: string, key: PubKey, preferred: string,
                      s: Server, region: string, freeRegions: seq<string>, fault: Fault)
      returns (r: CreateResult, ghost trace: seq<Label>)
      requires Valid()
      modifies this, redis, postgres
      ensures Valid()
      ensures Abs() == Run(old(Abs()), trace)
      ensures r.Denied? <==> !Admissible(old(Resolved(account, jwtTier)), |PeersOf(old(postgres.rows), account)|,
                                         preferred, region, freeRegions)
      ensures r.Denied? ==> Abs() == old(Abs())
      ensures !r.Created? ==> postgres.rows == old(postgres.rows) && releases == old(releases)
      ensures r.Created? ==>
        LeastFree(old(redis.Bits(s)), TakenHosts(old(postgres.rows), s), Reserved(r.host), redis.Bits(s))
      ensures r.Created? ==>
        var k, rows := Slot(account, s), old(postgres.rows);
        && postgres.rows == rows[k := Peer(if k in rows then rows[k].id else old(postgres.nextId), key, r.host, Pending)]
        && releases == old(releases) +
             (if k in rows && rows[k].status != Removed && rows[k].pubkey != key && rows[k].host != r.host
              then [Release(s, rows[k].host)] else [])
      ensures r.NoAddress? ==> LeastFree(old(redis.Bits(s)), TakenHosts(old(postgres.rows), s), Exhausted, redis.Bits(s))
      ensures r.Failed? ==> fault != NoFault
      ensures r.Failed? ==> KeepsFree(old(redis.Bits(s)), TakenHosts(old(postgres.rows), s), redis.Bits(s))
    {
      hide Run, Step, LeastFree, KeepsFree, CheckCreatePeer, CheckSelectedRegion, Admissible;
      ghost var before := Abs();
      trace := [];
      RunNothing(before);
      var tier := Resolve(account, jwtTier);
      var existing := postgres.ListPeersByAccount(account);
      ghost var request := Request(account, tier, key, preferred, region, freeRegions);
      AdmittedIffAdmissible(postgres.rows, request);
      if !CheckCreatePeer(tier, |existing|, preferred, freeRegions).Allowed? {
        return Denied, trace;
      }
      if !CheckSelectedRegion(tier, region, freeRegions).Allowed? {
        return Denied, trace;
      }
      var replaced := FindReplaced(existing, account, s);
      BeginAloft(before, s, request);
      ghost var scan;
      r, scan := Provision(account, key, s, replaced, fault, Flight(request, replaced, Scanning(0)));
      RunConcat(before, [Begin(s, request)], scan);
      trace := [Begin(s, request)] + scan;
    }

    method DeletePeer(peerId: nat, account: Account) returns (found: bool, ghost slot: Slot)
      requires Valid()
      modifies this, redis, postgres
      ensures Valid()
      ensures found <==> exists k :: LiveSlot(old(postgres.rows), k) && k.account == account && old(postgres.rows)[k].id == peerId
      ensures !found ==> Abs() == old(Abs())
      ensures found ==> LiveSlot(old(postgres.rows), slot) && old(postgres.rows)[slot].id == peerId
      ensures found ==>
        && postgres.rows == old(postgres.rows)[slot := old(postgres.rows)[slot].(status := Removed)]
        && redis.pools == old(redis.pools)[slot.server :=
             WithBit(old(redis.Bits(slot.server)), old(postgres.rows)[slot].host - 2, false)]
        && releases == old(releases)
      ensures found ==> Abs() == Run(old(Abs()), [Delete(slot), RunRelease(|old(releases)|)])
    {
      hide Run, Step;
      var k := postgres.GetPeer(peerId, account);
      slot := Slot("", "");
      if k.None? {
        return false, slot;
      }
      slot := k.value;
      var peer := postgres.rows[k.value];
      ghost var removed := postgres.DeletePeer(peerId, account);
      assert removed == Some(slot);
      redis.ReleaseIP(k.value.server, peer.host);
      DeletedAndReleased(old(Abs()), slot);
      found := true;
    }

    method MarkPeerActive(peerId: nat) returns (ghost slot: Option<Slot>)
      requires Valid()
      modifies this, postgres
      ensures Valid()
      ensures slot.None? ==> Abs() == old(Abs()) && forall k :: k in postgres.rows ==> postgres.rows[k].id != peerId
      ensures slot.Some? ==> slot.value in old(postgres.rows) && old(postgres.rows)[slot.value].id == peerId
      ensures slot.Some? ==> Abs() == Step(old(Abs()), Applied(slot.value))
      ensures slot.Some? ==>
        var k, rows := slot.value, old(postgres.rows);
        postgres.rows == if IndexRefuses(rows, k, rows[k].host) then rows else rows[k := rows[k].(status := Active)]
    {
      slot := postgres.UpdatePeerStatus(peerId);
    }

    // The goroutine of a replacement, once the superseded key's removal was pushed or given up.
    method FinishReplacement(i: nat, pushed: bool)
      requires Valid() && i < |releases|
      modifies this, redis
      ensures Valid()
      ensures Abs() == Step(old(Abs()), if pushed then RunRelease(i) else DropRelease(i))
      ensures postgres.rows == old(postgres.rows) && releases == old(releases)[..i] + old(releases)[i + 1..]
      ensures var r := old(releases)[i];
        redis.pools == if pushed then old(redis.pools)[r.server := WithBit(old(redis.Bits(r.server)), r.host - 2, false)]
                       else old(redis.pools)
    {
      var r := releases[i];
      releases := DropAt(releases, i);
      if pushed {
        redis.ReleaseIP(r.server, r.host);
      }
    }
  }

}
