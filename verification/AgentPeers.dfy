/** The agent's peer manager over the WireGuard device. A network belongs to one peer at a time: adding
    it to one takes it from whoever had it (WireGuard paper, section 2, "Cryptokey Routing"). */
module AgentPeers {
  import opened Text
  import AgentMirror
  import PeerHub

  type Key = string

  datatype Net = Net(address: nat, prefix: nat)

  datatype PeerConfig = PeerConfig(peerId: string, publicKey: Key, presharedKey: string, allowedIPs: seq<string>)

  // A device entry; an empty preshared key is none.
  datatype Entry = Entry(nets: set<Net>, psk: string)
  type Table = map<Key, Entry>

  // ReplaceAllowedIPs; without a preshared key the entry keeps the one it has.
  function WithPeer(t: Table, k: Key, nets: set<Net>, psk: string): Table {
    map j | j in t.Keys + {k} ::
      if j == k then Entry(nets, if psk == "" && k in t then t[k].psk else psk)
      else Entry(t[j].nets - nets, t[j].psk)
  }

  /** The peer has exactly its networks, which everyone else loses, and its preshared key if one is given. */
  lemma PeerIsConfigured(t: Table, k: Key, nets: set<Net>, psk: string)
    ensures var after := WithPeer(t, k, nets, psk);
      && after.Keys == t.Keys + {k}
      && after[k].nets == nets
      && (psk != "" ==> after[k].psk == psk)
      && (psk == "" && k in t ==> after[k].psk == t[k].psk)
      && (psk == "" && k !in t ==> after[k].psk == "")
      && forall j :: j in t && j != k ==> after[j].psk == t[j].psk && after[j].nets == t[j].nets - nets
  {
  }

  // cidrsToIPNets: a bare address is a /32, and what does not parse is skipped.
  function Networks(parse: string -> Option<Net>, cidrs: seq<string>): seq<Net> {
    if cidrs == [] then []
    else
      var c := cidrs[|cidrs| - 1];
      var before := Networks(parse, cidrs[..|cidrs| - 1]);
      match parse(if '/' in c then c else c + "/32")
      case Some(net) => before + [net]
      case None => before
  }

  // The entry stands for the network: as it is if it has a slash, else as a single address.
  predicate Denotes(parse: string -> Option<Net>, entry: string, net: Net) {
    && ('/' in entry ==> parse(entry) == Some(net))
    && ('/' !in entry ==> parse(entry + "/32") == Some(net))
  }

  ghost predicate Increasing(from: seq<nat>, bound: nat) {
    && (forall i :: 0 <= i < |from| ==> from[i] < bound)
    && (forall i, j :: 0 <= i < j < |from| ==> from[i] < from[j])
  }

  // The networks are those of the entries with these positions, and no other entry has one.
  ghost predicate NetsFrom(parse: string -> Option<Net>, cidrs: seq<string>, nets: seq<Net>, from: seq<nat>) {
    && |from| == |nets| && Increasing(from, |cidrs|)
    && (forall i :: 0 <= i < |from| ==> Denotes(parse, cidrs[from[i]], nets[i]))
    && (forall k: nat, net :: k < |cidrs| && Denotes(parse, cidrs[k], net) ==> k in from)
  }

  // The networks of the entries that have one, in the order of the list.
  ghost predicate InListOrder(parse: string -> Option<Net>, cidrs: seq<string>, nets: seq<Net>) {
    exists from :: NetsFrom(parse, cidrs, nets, from)
  }

  // One more entry, with or without a network.
  lemma OneMoreEntry(parse: string -> Option<Net>, cidrs: seq<string>, nets: seq<Net>, from: seq<nat>, c: string)
    requires NetsFrom(parse, cidrs, nets, from)
    ensures forall net :: Denotes(parse, c, net) ==> NetsFrom(parse, cidrs + [c], nets + [net], from + [|cidrs|])
    ensures (forall net :: !Denotes(parse, c, net)) ==> NetsFrom(parse, cidrs + [c], nets, from)
  {
    var all := cidrs + [c];
    forall net | Denotes(parse, c, net)
      ensures NetsFrom(parse, all, nets + [net], from + [|cidrs|])
    {
      hide Denotes;
      assert (from + [|cidrs|])[|from|] == |cidrs|;
      assert forall k :: k in from ==> k in from + [|cidrs|];
    }
  }

  lemma {:induction false} NetworksInOrder(parse: string -> Option<Net>, cidrs: seq<string>) returns (from: seq<nat>)
    ensures NetsFrom(parse, cidrs, Networks(parse, cidrs), from)
  {
    if cidrs == [] {
      from := [];
    } else {
      var n := |cidrs| - 1;
      var c := cidrs[n];
      from := NetworksInOrder(parse, cidrs[..n]);
      hide Increasing, NetsFrom;
      OneMoreEntry(parse, cidrs[..n], Networks(parse, cidrs[..n]), from, c);
      assert cidrs[..n] + [c] == cidrs;
      var net := parse(if '/' in c then c else c + "/32");
      if net.Some? {
        assert Denotes(parse, c, net.value);
        from := from + [n];
      }
    }
  }

  lemma DenotesOne(parse: string -> Option<Net>, entry: string, net: Net, other: Net)
    requires Denotes(parse, entry, net) && Denotes(parse, entry, other)
    ensures net == other
  {
  }

  lemma NetworksAreDenoted(parse: string -> Option<Net>, cidrs: seq<string>)
    ensures InListOrder(parse, cidrs, Networks(parse, cidrs))
    ensures forall net :: net in Networks(parse, cidrs) <==> exists entry :: entry in cidrs && Denotes(parse, entry, net)
  {
    var nets := Networks(parse, cidrs);
    var from := NetworksInOrder(parse, cidrs);
    hide Networks, Denotes;
    forall net
      ensures net in nets <==> exists entry :: entry in cidrs && Denotes(parse, entry, net)
    {
      if net in nets {
        var i :| 0 <= i < |nets| && nets[i] == net;
        assert Denotes(parse, cidrs[from[i]], net);
      }
      if exists entry :: entry in cidrs && Denotes(parse, entry, net) {
        var entry :| entry in cidrs && Denotes(parse, entry, net);
        var k: nat :| k < |cidrs| && cidrs[k] == entry;
        assert k in from;
        var i :| 0 <= i < |from| && from[i] == k;
        DenotesOne(parse, entry, net, nets[i]);
      }
    }
  }

  // The last configuration given for each key.
  function Want(desired: seq<PeerConfig>): map<Key, PeerConfig> {
    if desired == [] then map[]
    else
      var last := desired[|desired| - 1];
      Want(desired[..|desired| - 1])[last.publicKey := last]
  }

  predicate LastAt(desired: seq<PeerConfig>, i: nat, k: Key) {
    i < |desired| && desired[i].publicKey == k && forall j :: i < j < |desired| ==> desired[j].publicKey != k
  }

  lemma {:induction false} WantIsLast(desired: seq<PeerConfig>, i: nat, k: Key)
    requires LastAt(desired, i, k)
    ensures k in Want(desired) && Want(desired)[k] == desired[i]
  {
    var n := |desired| - 1;
    if i < n {
      assert desired[n].publicKey != k;
      WantIsLast(desired[..n], i, k);
    }
  }

  lemma {:induction false} WantedIsDesired(desired: seq<PeerConfig>, k: Key)
    requires k in Want(desired)
    ensures exists i :: 0 <= i < |desired| && desired[i].publicKey == k
  {
    var n := |desired| - 1;
    if desired[n].publicKey != k { WantedIsDesired(desired[..n], k); }
  }

  function WantNets(parse: string -> Option<Net>, cfg: PeerConfig): set<Net> {
    set n | n in Networks(parse, cfg.allowedIPs)
  }

  ghost predicate PairwiseDisjoint(want: map<Key, set<Net>>) {
    forall j, k :: j in want && k in want && j != k ==> want[j] !! want[k]
  }

  // Every entry owns only networks wanted for it, no network has two owners, and every wanted one has one.
  ghost predicate Shared(t: Table, want: map<Key, set<Net>>, applied: set<Key>) {
    && (forall k :: k in applied ==> k in t && k in want && t[k].nets <= want[k])
    && (forall j, k :: j in applied && k in applied && j != k ==> t[j].nets !! t[k].nets)
    && (forall k, n :: k in applied && n in want[k] ==> exists j :: j in applied && n in t[j].nets)
  }

  ghost predicate OwnsExactly(t: Table, want: map<Key, set<Net>>) {
    t.Keys == want.Keys && forall k :: k in want ==> t[k].nets == want[k]
  }

  /** However the table was filled, each key owns exactly its networks if and only if the wanted networks
      are pairwise disjoint. */
  lemma ExactIffDisjoint(t: Table, want: map<Key, set<Net>>)
    requires t.Keys == want.Keys && Shared(t, want, want.Keys)
    ensures OwnsExactly(t, want) <==> PairwiseDisjoint(want)
  {
    if PairwiseDisjoint(want) {
      forall k | k in want ensures want[k] <= t[k].nets {
        forall n | n in want[k] ensures n in t[k].nets {
          var j :| j in want.Keys && n in t[j].nets;
          assert n in want[j];
        }
      }
    }
    if OwnsExactly(t, want) {
      forall j, k | j in want && k in want && j != k ensures want[j] !! want[k] {
        assert t[j].nets !! t[k].nets;
      }
    }
  }

  lemma SharedAfterPeer(t: Table, want: map<Key, set<Net>>, applied: set<Key>, k: Key, psk: string)
    requires Shared(t, want, applied) && k in want
    ensures Shared(WithPeer(t, k, want[k], psk), want, applied + {k})
  {
    var after := WithPeer(t, k, want[k], psk);
    forall i, n | i in applied + {k} && n in want[i]
      ensures exists j :: j in applied + {k} && n in after[j].nets
    {
      if n in want[k] {
        assert n in after[k].nets;
      } else {
        var j :| j in applied && n in t[j].nets;
        assert j != k && n in after[j].nets;
      }
    }
  }

  // The device. Unless it is reliable its calls can fail, and a configuration call that times out may still
  // have taken effect.
  class Kernel {
    var table: Table
    const validKey: string -> bool
    const reliable: bool

    constructor (table: Table, validKey: string -> bool, reliable: bool)
      ensures this.table == table && this.validKey == validKey && this.reliable == reliable
    {
      this.table := table;
      this.validKey := validKey;
      this.reliable := reliable;
    }

    // The keys of a peer parse.
    predicate Accepts(k: Key, psk: string) {
      validKey(k) && (psk != "" ==> validKey(psk))
    }

    method AddPeer(k: Key, nets: set<Net>, psk: string) returns (ok: bool)
      modifies this
      ensures ok ==> table == WithPeer(old(table), k, nets, psk) && Accepts(k, psk)
      ensures !ok ==> table == old(table) || table == WithPeer(old(table), k, nets, psk)
      ensures reliable ==> ok == Accepts(k, psk)
      ensures !Accepts(k, psk) ==> !ok && table == old(table)
    {
      if !validKey(k) || (psk != "" && !validKey(psk)) {
        return false;
      }
      var reached, timely := Outcome();
      if reached {
        table := WithPeer(table, k, nets, psk);
      }
      ok := reached && timely;
    }

    // Whether a call to the device takes effect, and answers in time.
    method Outcome() returns (reached: bool, timely: bool)
      ensures reliable ==> reached && timely
    {
      reached, timely := true, true;
      if !reliable {
        reached, timely := *, *;
      }
    }

    method RemovePeer(k: Key) returns (ok: bool)
      modifies this
      ensures ok ==> table == old(table) - {k} && validKey(k)
      ensures !ok ==> table == old(table) || table == old(table) - {k}
      ensures reliable ==> ok == validKey(k)
      ensures !validKey(k) ==> !ok && table == old(table)
    {
      if !validKey(k) {
        return false;
      }
      var reached, timely := Outcome();
      if reached {
        table := table - {k};
      }
      ok := reached && timely;
    }

    method ListPeers() returns (keys: Option<set<Key>>)
      ensures keys.Some? ==> keys.value == table.Keys
      ensures reliable ==> keys.Some?
    {
      var reached, timely := Outcome();
      keys := if reached && timely then Some(table.Keys) else None;
    }
  }

  method CidrsToIPNets(parse: string -> Option<Net>, cidrs: seq<string>) returns (nets: seq<Net>)
    ensures nets == Networks(parse, cidrs)
    ensures InListOrder(parse, cidrs, nets)
    ensures forall net :: net in nets <==> exists entry :: entry in cidrs && Denotes(parse, entry, net)
  {
    nets := [];
    for i := 0 to |cidrs|
      invariant nets == Networks(parse, cidrs[..i])
    {
      var c := cidrs[i];
      if '/' !in c {
        c := c + "/32";
      }
      assert cidrs[..i + 1][..i] == cidrs[..i];
      var net := parse(c);
      if net.None? {
        continue;
      }
      nets := nets + [net.value];
    }
    assert cidrs[..|cidrs|] == cidrs;
    NetworksAreDenoted(parse, cidrs);
  }

  // The preshared key an entry ends with.
  function FinalPsk(before: Table, k: Key, psk: string): string {
    if psk == "" && k in before then before[k].psk else psk
  }

  // The networks wanted per key.
  function WantedNets(parse: string -> Option<Net>, want: map<Key, PeerConfig>): (nets: map<Key, set<Net>>)
    ensures nets.Keys == want.Keys
  {
    map k | k in want :: WantNets(parse, want[k])
  }

  ghost predicate PsksApplied(before: Table, t: Table, want: map<Key, PeerConfig>, rest: set<Key>) {
    && t.Keys == (want.Keys - rest) + (before.Keys * want.Keys)
    && forall k :: k in t ==> t[k].psk == if k in rest then before[k].psk else FinalPsk(before, k, want[k].presharedKey)
  }

  // The second sweep of a reconciliation, with the keys in `rest` still to be applied.
  ghost predicate Applied(before: Table, t: Table, want: map<Key, PeerConfig>, nets: map<Key, set<Net>>, rest: set<Key>) {
    && nets.Keys == want.Keys
    && PsksApplied(before, t, want, rest)
    && Shared(t, nets, want.Keys - rest)
    && (forall k :: k in want && k !in rest ==> nets[k] != {})
  }

  lemma NothingApplied(before: Table, t: Table, want: map<Key, PeerConfig>, nets: map<Key, set<Net>>)
    requires t == before - (before.Keys - want.Keys) && nets.Keys == want.Keys
    ensures Applied(before, t, want, nets, want.Keys)
  {
    assert want.Keys - want.Keys == {};
  }

  lemma OneMorePsk(before: Table, t: Table, want: map<Key, PeerConfig>, nets: set<Net>, rest: set<Key>, k: Key)
    requires rest <= want.Keys && k in rest && PsksApplied(before, t, want, rest)
    ensures PsksApplied(before, WithPeer(t, k, nets, want[k].presharedKey), want, rest - {k})
  {
    var after := WithPeer(t, k, nets, want[k].presharedKey);
    assert k in t <==> k in before;
    assert after.Keys == t.Keys + {k};
  }

  lemma OneMoreApplied(before: Table, t: Table, want: map<Key, PeerConfig>, nets: map<Key, set<Net>>, rest: set<Key>, k: Key)
    requires rest <= want.Keys && k in rest && Applied(before, t, want, nets, rest) && nets[k] != {}
    ensures Applied(before, WithPeer(t, k, nets[k], want[k].presharedKey), want, nets, rest - {k})
  {
    hide Shared, PsksApplied, WithPeer;
    OneMorePsk(before, t, want, nets[k], rest, k);
    SharedAfterPeer(t, nets, want.Keys - rest, k, want[k].presharedKey);
    assert want.Keys - (rest - {k}) == (want.Keys - rest) + {k};
  }

  lemma AllApplied(before: Table, t: Table, want: map<Key, PeerConfig>, nets: map<Key, set<Net>>)
    requires Applied(before, t, want, nets, {})
    ensures t.Keys == want.Keys == nets.Keys && Shared(t, nets, want.Keys)
    ensures OwnsExactly(t, nets) <==> PairwiseDisjoint(nets)
    ensures forall k :: k in want ==> t[k].psk == FinalPsk(before, k, want[k].presharedKey) && nets[k] != {}
  {
    hide Shared, OwnsExactly, PairwiseDisjoint, FinalPsk;
    assert want.Keys - {} == want.Keys;
    ExactIffDisjoint(t, nets);
  }

  class Manager {
    const wg: Kernel
    const parse: string -> Option<Net>
    var peers: map<Key, PeerConfig>

    constructor (wg: Kernel, parse: string -> Option<Net>)
      ensures this.wg == wg && this.parse == parse && peers == map[]
    {
      this.wg := wg;
      this.parse := parse;
      peers := map[];
    }

    method AddPeer(peerId: string, key: Key, psk: string, allowedIPs: seq<string>) returns (ok: bool)
      modifies this, wg
      ensures ok ==> peers == old(peers)[key := PeerConfig(peerId, key, psk, allowedIPs)]
      ensures ok ==> wg.table == WithPeer(old(wg.table), key, WantNets(parse, PeerConfig(peerId, key, psk, allowedIPs)), psk)
      ensures !ok ==> peers == old(peers)
      ensures wg.reliable ==> ok == wg.Accepts(key, psk)
      ensures wg.reliable && !ok ==> wg.table == old(wg.table)
    {
      hide InListOrder, Denotes, Networks;
      var nets := CidrsToIPNets(parse, allowedIPs);
      ok := wg.AddPeer(key, (set n | n in nets), psk);
      if ok {
        peers := peers[key := PeerConfig(peerId, key, psk, allowedIPs)];
      }
    }

    method RemovePeer(key: Key) returns (ok: bool)
      modifies this, wg
      ensures ok ==> peers == old(peers) - {key} && wg.table == old(wg.table) - {key}
      ensures !ok ==> peers == old(peers)
      ensures wg.reliable ==> ok == wg.validKey(key)
      ensures wg.reliable && !ok ==> wg.table == old(wg.table)
    {
      ok := wg.RemovePeer(key);
      if ok {
        peers := peers - {key};
      }
    }

    // A wanted peer has a network, and its keys parse.
    ghost predicate AppliablePeer(cfg: PeerConfig, k: Key) {
      WantNets(parse, cfg) != {} && wg.Accepts(k, cfg.presharedKey)
    }

    ghost predicate Appliable(want: map<Key, PeerConfig>) {
      forall k :: k in want ==> AppliablePeer(want[k], k)
    }

    ghost function Wanted(desired: seq<PeerConfig>): (nets: map<Key, set<Net>>)
      ensures nets.Keys == Want(desired).Keys
    {
      WantedNets(parse, Want(desired))
    }

    /** Reconciliation: on success the device has exactly the desired keys, each with networks wanted for
        it, and each owning exactly its networks if and only if those are pairwise disjoint, for any
        prior table and any order of the two sweeps. On error the cached map is unchanged. */
    method SyncPeers(desired: seq<PeerConfig>) returns (ok: bool)
      modifies this, wg
      ensures peers == if ok then Want(desired) else old(peers)
      ensures ok ==> wg.table.Keys == Want(desired).Keys
      ensures ok ==> Shared(wg.table, Wanted(desired), Want(desired).Keys)
      ensures ok ==> (OwnsExactly(wg.table, Wanted(desired)) <==> PairwiseDisjoint(Wanted(desired)))
      ensures ok ==> forall k :: k in Want(desired) ==>
        var psk := Want(desired)[k].presharedKey;
        wg.table[k].psk == if psk == "" && k in old(wg.table) then old(wg.table)[k].psk else psk
      ensures ok ==> Appliable(Want(desired))
      ensures wg.reliable && Appliable(Want(desired)) && (forall k :: k in old(wg.table) ==> wg.validKey(k)) ==> ok
    {
      hide Applied, Shared, WithPeer, OwnsExactly, PairwiseDisjoint, Want, WantedNets;
      var want := BuildWant(desired);
      var listed := wg.ListPeers();
      if listed.None? {
        return false;
      }
      ghost var before := wg.table;
      var removed := RemoveStale(listed.value, want);
      if !removed {
        return false;
      }
      var applied := ApplyWanted(want, before, Wanted(desired));
      if !applied {
        return false;
      }
      AllApplied(before, wg.table, want, Wanted(desired));
      peers := want;
      ok := true;
    }

    method BuildWant(desired: seq<PeerConfig>) returns (want: map<Key, PeerConfig>)
      ensures want == Want(desired)
      ensures forall k :: k in want ==> exists i :: 0 <= i < |desired| && desired[i].publicKey == k
      ensures forall k, i: nat :: LastAt(desired, i, k) ==> k in want && want[k] == desired[i]
    {
      want := map[];
      for i := 0 to |desired|
        invariant want == Want(desired[..i])
      {
        assert desired[..i + 1][..i] == desired[..i];
        want := want[desired[i].publicKey := desired[i]];
      }
      assert desired[..|desired|] == desired;
      forall k | k in want
        ensures exists i :: 0 <= i < |desired| && desired[i].publicKey == k
      {
        WantedIsDesired(desired, k);
      }
      forall k, i: nat | LastAt(desired, i, k)
        ensures k in want && want[k] == desired[i]
      {
        WantIsLast(desired, i, k);
      }
    }

    method RemoveStale(existing: set<Key>, want: map<Key, PeerConfig>) returns (ok: bool)
      requires existing == wg.table.Keys
      modifies wg
      ensures wg.reliable && (forall k :: k in existing ==> wg.validKey(k)) ==> ok
      ensures ok ==> wg.table == old(wg.table) - (existing - want.Keys)
    {
      var rest := existing;
      while rest != {}
        invariant rest <= existing
        invariant wg.table == old(wg.table) - (existing - rest - want.Keys)
      {
        var k :| k in rest;
        if k !in want {
          var removed := wg.RemovePeer(k);
          if !removed {
            return false;
          }
        }
        rest := rest - {k};
      }
      ok := true;
    }

    method ApplyWanted(want: map<Key, PeerConfig>, ghost before: Table, ghost nets: map<Key, set<Net>>) returns (ok: bool)
      requires wg.table == before - (before.Keys - want.Keys)
      requires nets == WantedNets(parse, want)
      modifies wg
      ensures ok ==> Applied(before, wg.table, want, nets, {}) && Appliable(want)
      ensures wg.reliable && Appliable(want) ==> ok
    {
      hide Applied, WithPeer, Shared, Networks, InListOrder, Denotes;
      var rest := want.Keys;
      NothingApplied(before, wg.table, want, nets);
      while rest != {}
        invariant rest <= want.Keys
        invariant Applied(before, wg.table, want, nets, rest)
        invariant forall k :: k in want && k !in rest ==> AppliablePeer(want[k], k)
      {
        var k :| k in rest;
        var cfg := want[k];
        var ipNets := CidrsToIPNets(parse, cfg.allowedIPs);
        if |ipNets| == 0 {
          return false;
        }
        assert ipNets[0] in nets[k];
        ghost var now := wg.table;
        var added := wg.AddPeer(k, (set n | n in ipNets), cfg.presharedKey);
        if !added {
          return false;
        }
        OneMoreApplied(before, now, want, nets, rest, k);
        rest := rest - {k};
      }
      ok := true;
    }
  }

  // handlePeerUpdate asks for the whole IPv4 space on every ADD, whatever the update says.
  const ALL_ADDRESSES := ["0.0.0.0/0"]

  lemma WholeSpace(parse: string -> Option<Net>)
    requires parse("0.0.0.0/0").Some?
    ensures forall cfg: PeerConfig :: cfg.allowedIPs == ALL_ADDRESSES ==> WantNets(parse, cfg) == {parse("0.0.0.0/0").value}
  {
    NetworksAreDenoted(parse, ALL_ADDRESSES);
    hide Networks;
    assert "0.0.0.0/0"[7] == '/';
    assert Denotes(parse, ALL_ADDRESSES[0], parse("0.0.0.0/0").value);
  }

  // An applied ADD is reported to the service; a failure is only logged.
  method HandlePeerUpdate(m: Manager, action: string, peerId: string, key: Key, psk: string)
    returns (ok: bool, report: bool)
    modifies m, m.wg
    ensures report == (ok && action == "ADD")
    ensures ok && action == "ADD" ==>
      m.wg.table == WithPeer(old(m.wg.table), key, WantNets(m.parse, PeerConfig(peerId, key, psk, ALL_ADDRESSES)), psk)
    ensures ok && action == "ADD" ==> m.peers == old(m.peers)[key := PeerConfig(peerId, key, psk, ALL_ADDRESSES)]
    ensures ok && action == "REMOVE" ==> m.wg.table == old(m.wg.table) - {key} && m.peers == old(m.peers) - {key}
    ensures !ok ==> m.peers == old(m.peers)
    ensures action != "ADD" && action != "REMOVE" ==> !ok && m.wg.table == old(m.wg.table)
    ensures ok && action == "ADD" && m.parse("0.0.0.0/0").Some? ==>
      m.wg.table == WithPeer(old(m.wg.table), key, {m.parse("0.0.0.0/0").value}, psk)
    ensures m.wg.reliable && action == "ADD" ==> ok == (m.wg.validKey(key) && (psk == "" || m.wg.validKey(psk)))
    ensures m.wg.reliable && action == "REMOVE" ==> ok == m.wg.validKey(key)
    ensures m.wg.reliable && !ok ==> m.wg.table == old(m.wg.table)
  {
    if m.parse("0.0.0.0/0").Some? { WholeSpace(m.parse); }
    ok, report := false, false;
    if action == "ADD" {
      ok := m.AddPeer(peerId, key, psk, ALL_ADDRESSES);
      report := ok;
    } else if action == "REMOVE" {
      ok := m.RemovePeer(key);
    }
  }

  // An update that takes effect, with the preshared key of an ADD.
  datatype Change = Change(update: AgentMirror.Update, psk: string)

  // On a reliable device an update takes effect if its keys parse.
  function ChangeOf(u: PeerHub.PeerUpdate, validKey: string -> bool): seq<Change> {
    if u.action == "ADD" && validKey(u.publicKey) && (u.presharedKey == "" || validKey(u.presharedKey)) then
      [Change(AgentMirror.Add(u.publicKey), u.presharedKey)]
    else if u.action == "REMOVE" && validKey(u.publicKey) then [Change(AgentMirror.Remove(u.publicKey), "")]
    else []
  }

  function Changes(us: seq<PeerHub.PeerUpdate>, validKey: string -> bool): seq<Change> {
    if us == [] then [] else Changes(us[..|us| - 1], validKey) + ChangeOf(us[|us| - 1], validKey)
  }

  function UpdatesOf(cs: seq<Change>): (us: seq<AgentMirror.Update>)
    ensures |us| == |cs|
  {
    seq(|cs|, i requires 0 <= i < |cs| => cs[i].update)
  }

  function Changed(t: Table, c: Change, all: Net): Table {
    match c.update
    case Add(key) => WithPeer(t, key, {all}, c.psk)
    case Remove(key) => t - {key}
  }

  // The device after changes that all take effect.
  function Handled(t: Table, cs: seq<Change>, all: Net): Table {
    if cs == [] then t else Changed(Handled(t, cs[..|cs| - 1], all), cs[|cs| - 1], all)
  }

  lemma HandledNext(t: Table, cs: seq<Change>, more: seq<Change>, all: Net)
    requires |more| <= 1
    ensures Handled(t, cs + more, all) == Handled(Handled(t, cs, all), more, all)
  {
    if more == [] {
      assert cs + more == cs;
    } else {
      assert (cs + more)[..|cs|] == cs && more[..0] == [];
    }
  }

  lemma HandledNothing(t: Table, all: Net)
    ensures Handled(t, [], all) == t
  {
  }

  lemma HandledOne(t: Table, c: Change, all: Net)
    ensures Handled(t, [c], all) == Changed(t, c, all)
  {
    assert [c][..0] == [];
  }

  // The agent's stream: on a reliable device the updates whose keys parse take effect in order, the others none.
  method HandleUpdates(m: Manager, us: seq<PeerHub.PeerUpdate>)
    requires m.wg.reliable && m.parse("0.0.0.0/0").Some?
    modifies m, m.wg
    ensures m.wg.table == Handled(old(m.wg.table), Changes(us, m.wg.validKey), m.parse("0.0.0.0/0").value)
  {
    hide WithPeer, Handled;
    ghost var was, all := m.wg.table, m.parse("0.0.0.0/0").value;
    HandledNothing(was, all);
    for i := 0 to |us|
      invariant m.wg.table == Handled(was, Changes(us[..i], m.wg.validKey), all)
    {
      ghost var now := m.wg.table;
      var u := us[i];
      ghost var before, change := Changes(us[..i], m.wg.validKey), ChangeOf(u, m.wg.validKey);
      var _, _ := HandlePeerUpdate(m, u.action, u.peerId, u.publicKey, u.presharedKey);
      assert us[..i + 1][..i] == us[..i];
      HandledNext(was, before, change, all);
      HandledNothing(now, all);
      if change != [] { HandledOne(now, change[0], all); }
    }
    assert us[..|us|] == us;
  }

  predicate HasAdd(us: seq<AgentMirror.Update>) {
    exists u :: u in us && u.Add?
  }

  // The key added last, unless it was removed since.
  function Holder(us: seq<AgentMirror.Update>): Option<Key> {
    if us == [] then None
    else
      match us[|us| - 1]
      case Add(key) => Some(key)
      case Remove(key) => if Holder(us[..|us| - 1]) == Some(key) then None else Holder(us[..|us| - 1])
  }

  function NetsAfter(t: Table, us: seq<AgentMirror.Update>, all: Net, k: Key): set<Net> {
    if HasAdd(us) then if Holder(us) == Some(k) then {all} else {}
    else if k in t then t[k].nets
    else {}
  }

  lemma AppliedNext(keys: set<Key>, us: seq<AgentMirror.Update>)
    requires us != []
    ensures AgentMirror.ApplyAll(keys, us) == AgentMirror.Apply(AgentMirror.ApplyAll(keys, us[..|us| - 1]), us[|us| - 1])
  {
  }

  lemma NetsAreSmall(t: Table, us: seq<AgentMirror.Update>, all: Net)
    requires forall k :: k in t ==> t[k].nets <= {all}
    ensures forall k :: NetsAfter(t, us, all, k) <= {all}
  {
  }

  lemma AddsGrow(us: seq<AgentMirror.Update>, u: AgentMirror.Update)
    ensures HasAdd(us + [u]) <==> HasAdd(us) || u.Add?
  {
    assert u in us + [u];
    assert forall v :: v in us ==> v in us + [u];
  }

  /** The device's keys follow the mirrored set of keys; but since every ADD takes the whole address space, after
      any updates with an ADD only the key added last has it, unless that was removed since: then nobody has. */
  lemma {:induction false} LastAddTakesEverything(t: Table, cs: seq<Change>, all: Net)
    requires forall k :: k in t ==> t[k].nets <= {all}
    ensures Handled(t, cs, all).Keys == AgentMirror.ApplyAll(t.Keys, UpdatesOf(cs))
    ensures forall k :: k in Handled(t, cs, all) ==> Handled(t, cs, all)[k].nets == NetsAfter(t, UpdatesOf(cs), all, k)
    ensures !HasAdd(UpdatesOf(cs)) ==> Handled(t, cs, all).Keys <= t.Keys && Holder(UpdatesOf(cs)) == None
  {
    if cs == [] {
    } else {
      var us, n := UpdatesOf(cs), |cs| - 1;
      LastAddTakesEverything(t, cs[..n], all);
      assert us[..n] == UpdatesOf(cs[..n]) && us[n] == cs[n].update;
      AddsGrow(us[..n], us[n]);
      assert us[..n] + [us[n]] == us;
      hide HasAdd, AgentMirror.ApplyAll, UpdatesOf;
      NetsAreSmall(t, us[..n], all);
      assert AgentMirror.ApplyAll(t.Keys, us) == AgentMirror.Apply(AgentMirror.ApplyAll(t.Keys, us[..n]), us[n]) by {
        AppliedNext(t.Keys, us);
      }
    }
  }

  /** From an empty device, so at any time exactly one present key or none has the address space. */
  lemma HolderHasEverything(cs: seq<Change>, all: Net)
    ensures Handled(map[], cs, all).Keys == AgentMirror.ApplyAll({}, UpdatesOf(cs))
    ensures forall k :: k in Handled(map[], cs, all) ==>
      Handled(map[], cs, all)[k].nets == if Holder(UpdatesOf(cs)) == Some(k) then {all} else {}
  {
    var none: Table := map[];
    assert none.Keys == {};
    LastAddTakesEverything(none, cs, all);
  }
}
