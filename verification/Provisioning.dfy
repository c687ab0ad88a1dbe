/** Peer provisioning as a state machine. A label is one call to PostgreSQL or Redis, so creates on
    different servers, deletes, agent reports, delayed releases and cache losses interleave freely;
    creates on one server do not overlap. */
module Provisioning {
  import opened Text
  import opened AddressPool
  import opened Entitlement

  type Account = string
  type Server = string
  type PubKey = string

  datatype Status = Pending | Active | Removed

  // A row of the peers table. UNIQUE(account_id, server_id) makes the slot its key.
  datatype Slot = Slot(account: Account, server: Server)
  datatype Peer = Peer(id: nat, pubkey: PubKey, host: Host, status: Status)
  type Rows = map<Slot, Peer>

  predicate Live(p: Peer) {
    !p.status.Removed?
  }

  predicate LiveSlot(rows: Rows, k: Slot) {
    k in rows && Live(rows[k])
  }

  predicate Holds(rows: Rows, k: Slot, s: Server, h: Host) {
    LiveSlot(rows, k) && k.server == s && rows[k].host == h
  }

  // IsActiveIPAssigned
  predicate HostTaken(rows: Rows, s: Server, h: Host) {
    exists k :: k in rows && Holds(rows, k, s, h)
  }

  function TakenHosts(rows: Rows, s: Server): set<Host> {
    set k | k in rows && k.server == s && Live(rows[k]) :: rows[k].host
  }

  // ListPeersByAccount
  function PeersOf(rows: Rows, a: Account): set<Slot> {
    set k | k in rows && k.account == a && Live(rows[k])
  }

  // The partial unique index on (server_id, assigned_ip) refuses a live row for slot k at this host.
  predicate IndexRefuses(rows: Rows, k: Slot, h: Host) {
    exists other :: other in rows && other != k && Holds(rows, other, k.server, h)
  }

  datatype Request = Request(account: Account, tier: string, pubkey: PubKey,
                             preferredRegion: string, selectedRegion: string, freeRegions: seq<string>)

  datatype Phase =
    | Scanning(attempt: nat)
    | Checking(attempt: nat, candidate: Host)
    | Holding(host: Host)

  // A CreatePeer call past its entitlement check: the peer it will supersede was read at the start.
  datatype Flight = Flight(request: Request, replaced: Option<Peer>, phase: Phase)

  // An address that a replacement's goroutine or a delete still has to give back.
  datatype Release = Release(server: Server, host: Host)

  datatype State = State(rows: Rows, pools: map<Server, seq<bool>>, flights: map<Server, Flight>,
                         releases: seq<Release>, nextId: nat)

  const INITIAL := State(map[], map[], map[], [], 0)

  function Pool(st: State, s: Server): seq<bool> {
    if s in st.pools then st.pools[s] else []
  }

  function SetBit(st: State, s: Server, h: Host, v: bool): State {
    st.(pools := st.pools[s := WithBit(Pool(st, s), h - 2, v)])
  }

  datatype Label =
    | Begin(s: Server, request: Request)
    | Allocate(s: Server)
    | Check(s: Server)
    | Upsert(s: Server)
    | Abandon(s: Server)
    | Delete(slot: Slot)
    | Applied(slot: Slot)
    | RunRelease(i: nat)
    | DropRelease(i: nat)
    | LoseCache(s: Server, bits: seq<bool>)

  predicate Admitted(rows: Rows, r: Request) {
    && CheckCreatePeer(r.tier, |PeersOf(rows, r.account)|, r.preferredRegion, r.freeRegions).Allowed?
    && CheckSelectedRegion(r.tier, r.selectedRegion, r.freeRegions).Allowed?
  }

  /** A create is admitted on the regions it names and the devices its account has, the tier deciding. */
  lemma AdmittedIffAdmissible(rows: Rows, r: Request)
    ensures Admitted(rows, r) <==>
      Admissible(r.tier, |PeersOf(rows, r.account)|, r.preferredRegion, r.selectedRegion, r.freeRegions)
  {
    AdmittedRequest(r.tier, |PeersOf(rows, r.account)|, r.preferredRegion, r.selectedRegion, r.freeRegions);
    hide CheckCreatePeer, CheckSelectedRegion, Admissible;
  }

  function Superseded(rows: Rows, k: Slot): Option<Peer> {
    if LiveSlot(rows, k) then Some(rows[k]) else None
  }

  function Land(st: State, s: Server): State {
    st.(flights := st.flights - {s})
  }

  function WithPhase(st: State, s: Server, phase: Phase): State
    requires s in st.flights
  {
    st.(flights := st.flights[s := st.flights[s].(phase := phase)])
  }

  function AllocateStep(st: State, s: Server, attempt: nat): State
    requires s in st.flights
  {
    var bit := FirstClear(Pool(st, s));
    if attempt >= POOL_SIZE || bit >= POOL_SIZE then Land(st, s)
    else SetBit(WithPhase(st, s, Checking(attempt, bit + 2)), s, bit + 2, true)
  }

  // INSERT ... ON CONFLICT (account_id, server_id) DO UPDATE
  function UpsertRow(st: State, k: Slot, key: PubKey, h: Host): State {
    if k in st.rows then st.(rows := st.rows[k := Peer(st.rows[k].id, key, h, Pending)])
    else st.(rows := st.rows[k := Peer(st.nextId, key, h, Pending)], nextId := st.nextId + 1)
  }

  function SupersededRelease(f: Flight, s: Server, h: Host): seq<Release> {
    match f.replaced
    case Some(peer) =>
      if peer.pubkey != f.request.pubkey && peer.host != h then [Release(s, peer.host)] else []
    case None => []
  }

  function UpsertStep(st: State, s: Server, h: Host): State
    requires s in st.flights
  {
    var f := st.flights[s];
    var k := Slot(f.request.account, s);
    if IndexRefuses(st.rows, k, h) then Land(SetBit(st, s, h, false), s)
    else
      var done := Land(UpsertRow(st, k, f.request.pubkey, h), s);
      done.(releases := st.releases + SupersededRelease(f, s, h))
  }

  // An error return gives the candidate back, if there is one.
  function AbandonStep(st: State, s: Server): State
    requires s in st.flights
  {
    match st.flights[s].phase
    case Scanning(_) => Land(st, s)
    case Checking(_, h) => Land(SetBit(st, s, h, false), s)
    case Holding(h) => Land(SetBit(st, s, h, false), s)
  }

  function DropAt<T>(xs: seq<T>, i: nat): seq<T>
    requires i < |xs|
  {
    xs[..i] + xs[i + 1..]
  }

  // A label that is not enabled changes nothing.
  function Step(st: State, l: Label): State {
    match l
    case Begin(s, r) =>
      if s in st.flights || !Admitted(st.rows, r) then st
      else st.(flights := st.flights[s := Flight(r, Superseded(st.rows, Slot(r.account, s)), Scanning(0))])
    case Allocate(s) =>
      if s in st.flights && st.flights[s].phase.Scanning? then AllocateStep(st, s, st.flights[s].phase.attempt)
      else st
    case Check(s) =>
      if s in st.flights && st.flights[s].phase.Checking? then
        var p := st.flights[s].phase;
        if HostTaken(st.rows, s, p.candidate) then WithPhase(st, s, Scanning(p.attempt + 1))
        else WithPhase(st, s, Holding(p.candidate))
      else st
    case Upsert(s) =>
      if s in st.flights && st.flights[s].phase.Holding? then UpsertStep(st, s, st.flights[s].phase.host)
      else st
    case Abandon(s) =>
      if s in st.flights then AbandonStep(st, s) else st
    case Delete(k) =>
      if LiveSlot(st.rows, k) then
        st.(rows := st.rows[k := st.rows[k].(status := Removed)],
            releases := st.releases + [Release(k.server, st.rows[k].host)])
      else st
    case Applied(k) =>
      if k in st.rows && !IndexRefuses(st.rows, k, st.rows[k].host) then
        st.(rows := st.rows[k := st.rows[k].(status := Active)])
      else st
    case RunRelease(i) =>
      if i < |st.releases| then
        SetBit(st.(releases := DropAt(st.releases, i)), st.releases[i].server, st.releases[i].host, false)
      else st
    case DropRelease(i) =>
      if i < |st.releases| then st.(releases := DropAt(st.releases, i)) else st
    case LoseCache(s, bits) => st.(pools := st.pools[s := bits])
  }

  function Run(st: State, ls: seq<Label>): State {
    if ls == [] then st else Step(Run(st, ls[..|ls| - 1]), ls[|ls| - 1])
  }

  lemma RunNothing(st: State)
    ensures Run(st, []) == st
  {
  }

  lemma RunThen(st: State, ls: seq<Label>, l: Label)
    ensures Run(st, ls + [l]) == Step(Run(st, ls), l)
  {
    hide Step;
    assert (ls + [l])[..|ls + [l]| - 1] == ls;
  }

  lemma RunOne(st: State, l: Label)
    ensures Run(st, [l]) == Step(st, l)
  {
    hide Step;
    RunNothing(st);
    hide Run;
    RunThen(st, [], l);
    assert [] + [l] == [l];
  }

  lemma RunTwo(st: State, a: Label, b: Label)
    ensures Run(st, [a, b]) == Step(Step(st, a), b)
  {
    hide Step, Run;
    RunOne(st, a);
    RunThen(st, [a], b);
    assert [a] + [b] == [a, b];
  }

  lemma {:induction false} RunConcat(st: State, ls: seq<Label>, ms: seq<Label>)
    ensures Run(st, ls + ms) == Run(Run(st, ls), ms)
  {
    hide Step;
    if ms == [] {
      assert ls + ms == ls;
    } else {
      RunConcat(st, ls, ms[..|ms| - 1]);
      assert (ls + ms)[..|ls + ms| - 1] == ls + ms[..|ms| - 1];
    }
  }

  // The upsert of the create in flight on s would violate the unique index.
  predicate UpsertRefused(st: State, s: Server) {
    && s in st.flights && st.flights[s].phase.Holding?
    && IndexRefuses(st.rows, Slot(st.flights[s].request.account, s), st.flights[s].phase.host)
  }
}
