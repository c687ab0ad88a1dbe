/** The agent mirrors the database: updates that do not overtake each other leave it with the public keys of the
    server's live rows, as far as none is still owed to it. */
module AgentMirror {
  import opened Text
  import opened AddressPool
  import opened Provisioning
  import PeerHub
  import Push

  datatype Update = Add(pubkey: PubKey) | Remove(pubkey: PubKey)

  function LiveKeys(rows: Rows, s: Server): set<PubKey> {
    set k | k in rows && k.server == s && Live(rows[k]) :: rows[k].pubkey
  }

  predicate KeyHeld(rows: Rows, k: Slot, s: Server, key: PubKey) {
    LiveSlot(rows, k) && k.server == s && rows[k].pubkey == key
  }

  function CreatePushes(f: Flight): seq<Update> {
    var removal := if f.replaced.Some? && f.replaced.value.pubkey != f.request.pubkey
                   then [Remove(f.replaced.value.pubkey)] else [];
    removal + [Add(f.request.pubkey)]
  }

  // What the service pushes to the agent of s because of this label: a replacement removes the
  // superseded key before it adds the new one.
  function Pushes(st: State, l: Label, s: Server): seq<Update> {
    match l
    case Upsert(t) =>
      if t == s && t in st.flights && st.flights[t].phase.Holding? && !UpsertRefused(st, t) then
        CreatePushes(st.flights[t])
      else []
    case Delete(k) => if k.server == s && LiveSlot(st.rows, k) then [Remove(st.rows[k].pubkey)] else []
    case _ => []
  }

  // handlePeerUpdate on the agent's table of keys
  function Apply(keys: set<PubKey>, u: Update): set<PubKey> {
    match u
    case Add(key) => keys + {key}
    case Remove(key) => keys - {key}
  }

  function ApplyAll(keys: set<PubKey>, us: seq<Update>): set<PubKey> {
    if us == [] then keys else Apply(ApplyAll(keys, us[..|us| - 1]), us[|us| - 1])
  }

  lemma ApplyOne(keys: set<PubKey>, u: Update)
    ensures ApplyAll(keys, [u]) == Apply(keys, u)
  {
    assert [u][..0] == [];
  }

  lemma {:induction false} ApplyAllConcat(keys: set<PubKey>, us: seq<Update>, vs: seq<Update>)
    ensures ApplyAll(keys, us + vs) == ApplyAll(ApplyAll(keys, us), vs)
  {
    if vs == [] {
      assert us + vs == us;
    } else {
      var init := vs[..|vs| - 1];
      ApplyAllConcat(keys, us, init);
      assert (us + vs)[..|us + vs| - 1] == us + init;
    }
  }

  // The agent's event stream: subscribed to the hub, broken, or connected and listed but not yet subscribed.
  datatype Stream = Subscribed | Broken | Listed

  // The push of an update: how many of its attempts failed, and whether it starts only after the one before it has
  // ended, as the ADD of a replacement does after its REMOVE.
  datatype Sending = Sending(update: Update, tries: nat, waits: bool)

  predicate Open(p: Sending) {
    p.tries < Push.MAX_RETRIES
  }

  // A server's provisioning, its agent's table, the updates in transit, and those owed to the agent in the order of
  // the service calls: still being pushed, or lost and not followed by an accepted update of the same key.
  datatype Link = Link(st: State, agent: set<PubKey>, transit: seq<Update>, stream: Stream, owed: seq<Sending>)

  // `room` says whether the subscriber's queue has a free slot; with fewer than 32 updates in transit it has. A push
  // can also be given up between attempts, or be taken by the queue of a stream that is gone.
  datatype Move =
    | Service(l: Label)
    | Attempt(i: nat, room: bool)
    | GiveUp(i: nat)
    | Swallow(i: nat)
    | Deliver
    | Break
    | List(replay: seq<Update>)
    | Subscribe

  const IDLE := Link(INITIAL, {}, [], Subscribed, [])

  // A reconnecting stream first replays every live row as an ADD, unless the listing fails.
  predicate CatchUp(rows: Rows, s: Server, us: seq<Update>) {
    && (forall u :: u in us ==> u.Add? && u.pubkey in LiveKeys(rows, s))
    && (forall key :: key in LiveKeys(rows, s) ==> Add(key) in us)
  }

  function Updates(ps: seq<Sending>): (us: seq<Update>)
    ensures |us| == |ps|
  {
    seq(|ps|, i requires 0 <= i < |ps| => ps[i].update)
  }

  function Started(us: seq<Update>): seq<Sending> {
    seq(|us|, i requires 0 <= i < |us| => Sending(us[i], 0, i > 0))
  }

  function Dropped(us: seq<Update>): seq<Sending> {
    seq(|us|, i requires 0 <= i < |us| => Sending(us[i], Push.MAX_RETRIES, false))
  }

  // Without the lost updates of the key; those still being pushed stay.
  function WithoutLost(ps: seq<Sending>, key: PubKey): seq<Sending> {
    if ps == [] then []
    else
      var n := |ps| - 1;
      WithoutLost(ps[..n], key) + (if ps[n].update.pubkey == key && !Open(ps[n]) then [] else [ps[n]])
  }

  // The push may make its next attempt.
  predicate Ready(ps: seq<Sending>, i: nat) {
    i < |ps| && Open(ps[i]) && !ps[i].waits
  }

  // The push that waited for this one starts.
  function Released(ps: seq<Sending>, i: nat): seq<Sending> {
    if i + 1 < |ps| then ps[i + 1 := ps[i + 1].(waits := false)] else ps
  }

  // The push ends without success, and the one that waited for it is not made.
  function GivenUp(ps: seq<Sending>, i: nat): seq<Sending>
    requires i < |ps|
  {
    var ended := ps[i := ps[i].(tries := Push.MAX_RETRIES)];
    if i + 1 < |ps| && ps[i + 1].waits then ended[i + 1 := ps[i + 1].(tries := Push.MAX_RETRIES, waits := false)]
    else ended
  }

  function Failed(ps: seq<Sending>, i: nat): seq<Sending>
    requires i < |ps|
  {
    if ps[i].tries + 1 < Push.MAX_RETRIES then ps[i := ps[i].(tries := ps[i].tries + 1)] else GivenUp(ps, i)
  }

  // The update joins the queue and makes up for the lost ones of its key before it.
  function Accepted(x: Link, i: nat): Link
    requires i < |x.owed|
  {
    var u, ps := x.owed[i].update, Released(x.owed, i);
    x.(transit := x.transit + [u], owed := WithoutLost(ps[..i], u.pubkey) + ps[i + 1..])
  }

  predicate Accepts(x: Link, room: bool) {
    x.stream.Subscribed? && (room || |x.transit| < PeerHub.QUEUE_SIZE)
  }

  function Next(x: Link, s: Server, m: Move): Link {
    match m
    case Service(l) => x.(st := Step(x.st, l), owed := x.owed + Started(Pushes(x.st, l, s)))
    case Attempt(i, room) =>
      if !Ready(x.owed, i) then x
      else if Accepts(x, room) then Accepted(x, i)
      else x.(owed := Failed(x.owed, i))
    case GiveUp(i) => if Ready(x.owed, i) then x.(owed := GivenUp(x.owed, i)) else x
    case Swallow(i) =>
      if Ready(x.owed, i) && !x.stream.Subscribed? then
        x.(owed := Released(x.owed[i := x.owed[i].(tries := Push.MAX_RETRIES)], i))
      else x
    case Deliver =>
      if x.transit == [] then x else x.(agent := Apply(x.agent, x.transit[0]), transit := x.transit[1..])
    case Break => x.(stream := Broken, transit := [], owed := Dropped(x.transit) + x.owed)
    case List(replay) =>
      if x.stream.Broken? && (replay == [] || CatchUp(x.st.rows, s, replay)) then x.(stream := Listed, transit := replay)
      else x
    case Subscribe => if x.stream.Listed? then x.(stream := Subscribed) else x
  }

  function RunLink(x: Link, s: Server, ms: seq<Move>): Link {
    if ms == [] then x else Next(RunLink(x, s, ms[..|ms| - 1]), s, ms[|ms| - 1])
  }

  // What the agent will hold once it has applied what is in transit.
  function View(x: Link): set<PubKey> {
    ApplyAll(x.agent, x.transit)
  }

  ghost predicate DistinctKeys(rows: Rows, s: Server) {
    forall j, k, key :: KeyHeld(rows, j, s, key) && KeyHeld(rows, k, s, key) ==> j == k
  }

  // No other slot of the server has the key live.
  ghost predicate OwnKey(rows: Rows, k: Slot, key: PubKey) {
    forall j :: KeyHeld(rows, j, k.server, key) ==> j == k
  }

  ghost predicate FlightKeys(st: State, s: Server) {
    s in st.flights ==>
      var f := st.flights[s]; var k := Slot(f.request.account, s);
      && OwnKey(st.rows, k, f.request.pubkey)
      && (f.replaced.Some? ==> OwnKey(st.rows, k, f.replaced.value.pubkey))
      && (LiveSlot(st.rows, k) ==> f.replaced.Some? && f.replaced.value.pubkey == st.rows[k].pubkey)
  }

  ghost predicate Keyed(st: State, s: Server) {
    DistinctKeys(st.rows, s) && FlightKeys(st, s)
  }

  // A create brings a key that no other live row of the server uses; reports reach live rows.
  ghost predicate WellBehaved(st: State, s: Server, m: Move) {
    match m
    case Service(Begin(t, r)) => t == s ==> OwnKey(st.rows, Slot(r.account, s), r.pubkey)
    case Service(Applied(k)) => LiveSlot(st.rows, k)
    case _ => true
  }

  lemma KeysMember(rows: Rows, s: Server, key: PubKey)
    ensures key in LiveKeys(rows, s) <==> exists k :: k in rows && KeyHeld(rows, k, s, key)
  {
    if key in LiveKeys(rows, s) {
      var k :| k in rows && k.server == s && Live(rows[k]) && rows[k].pubkey == key;
      assert KeyHeld(rows, k, s, key);
    }
  }

  // No step but the upsert on s makes a key live on s.
  ghost predicate NoNewKey(before: Rows, after: Rows, s: Server) {
    forall k, key :: KeyHeld(after, k, s, key) ==> KeyHeld(before, k, s, key)
  }

  lemma KeysAfterDelete(st: State, s: Server, k: Slot)
    requires Keyed(st, s) && LiveSlot(st.rows, k) && k.server == s
    ensures Keyed(Step(st, Delete(k)), s)
    ensures LiveKeys(Step(st, Delete(k)).rows, s) == LiveKeys(st.rows, s) - {st.rows[k].pubkey}
  {
    hide LiveKeys;
    var after := Step(st, Delete(k)).rows;
    var key := st.rows[k].pubkey;
    assert NoNewKey(st.rows, after, s);
    forall j ensures j in LiveKeys(after, s) <==> j in LiveKeys(st.rows, s) - {key} {
      KeysMember(st.rows, s, j);
      KeysMember(after, s, j);
      assert KeyHeld(st.rows, k, s, key);
      if j in LiveKeys(st.rows, s) && j != key {
        var i :| i in st.rows && KeyHeld(st.rows, i, s, j);
        assert KeyHeld(after, i, s, j);
      }
      if j in LiveKeys(after, s) {
        var i :| i in after && KeyHeld(after, i, s, j);
        assert KeyHeld(st.rows, i, s, j);
      }
    }
  }

  lemma CreatePushesEffect(keys: set<PubKey>, f: Flight)
    ensures ApplyAll(keys, CreatePushes(f)) ==
      (if f.replaced.Some? then keys - {f.replaced.value.pubkey} else keys) + {f.request.pubkey}
  {
    hide ApplyAll;
    var add := Add(f.request.pubkey);
    ApplyOne(keys, add);
    if f.replaced.Some? && f.replaced.value.pubkey != f.request.pubkey {
      var removal := Remove(f.replaced.value.pubkey);
      ApplyAllConcat(keys, [removal], [add]);
      ApplyOne(keys, removal);
      ApplyOne(Apply(keys, removal), add);
    } else {
      assert CreatePushes(f) == [add];
    }
  }

  lemma KeysAfterUpsert(st: State, s: Server)
    requires DistinctKeys(st.rows, s) && FlightKeys(st, s)
    requires s in st.flights && st.flights[s].phase.Holding? && !UpsertRefused(st, s)
    ensures var f := st.flights[s]; var after := Step(st, Upsert(s)).rows;
      && LiveKeys(after, s) == ApplyAll(LiveKeys(st.rows, s), CreatePushes(f))
      && DistinctKeys(after, s)
  {
    hide LiveKeys, ApplyAll, CreatePushes, WithBit, FirstClear, SupersededRelease;
    var f := st.flights[s];
    var k := Slot(f.request.account, s);
    var after := Step(st, Upsert(s)).rows;
    CreatePushesEffect(LiveKeys(st.rows, s), f);
    forall key
      ensures key in LiveKeys(after, s) <==> key in ApplyAll(LiveKeys(st.rows, s), CreatePushes(f))
    {
      KeysMember(st.rows, s, key);
      KeysMember(after, s, key);
      assert KeyHeld(after, k, s, f.request.pubkey);
      if key in LiveKeys(after, s) {
        var j :| j in after && KeyHeld(after, j, s, key);
        if j != k { assert KeyHeld(st.rows, j, s, key); }
      }
      if key in LiveKeys(st.rows, s) {
        var j :| j in st.rows && KeyHeld(st.rows, j, s, key);
        if j != k { assert KeyHeld(after, j, s, key); }
      }
    }
    forall i, j, key | KeyHeld(after, i, s, key) && KeyHeld(after, j, s, key)
      ensures i == j
    {
      if i != k { assert KeyHeld(st.rows, i, s, key); }
      if j != k { assert KeyHeld(st.rows, j, s, key); }
    }
  }

  lemma KeyedAfterUpsert(st: State, s: Server)
    requires Keyed(st, s)
    requires s in st.flights && st.flights[s].phase.Holding? && !UpsertRefused(st, s)
    ensures Keyed(Step(st, Upsert(s)), s)
    ensures LiveKeys(Step(st, Upsert(s)).rows, s) == ApplyAll(LiveKeys(st.rows, s), Pushes(st, Upsert(s), s))
  {
    KeysAfterUpsert(st, s);
    hide LiveKeys, ApplyAll, CreatePushes, DistinctKeys, WithBit, FirstClear, SupersededRelease;
    assert s !in Step(st, Upsert(s)).flights;
  }

  // Steps that touch neither the keys on s nor what its create in flight knows.
  lemma KeysFrame(st: State, s: Server, l: Label)
    requires Keyed(st, s)
    requires forall k, key :: KeyHeld(Step(st, l).rows, k, s, key) <==> KeyHeld(st.rows, k, s, key)
    requires s in Step(st, l).flights ==> s in st.flights
    requires s in Step(st, l).flights ==> Step(st, l).flights[s].request == st.flights[s].request
    requires s in Step(st, l).flights ==> Step(st, l).flights[s].replaced == st.flights[s].replaced
    ensures Keyed(Step(st, l), s) && LiveKeys(Step(st, l).rows, s) == LiveKeys(st.rows, s)
  {
    hide Step;
    var next := Step(st, l);
    forall key ensures key in LiveKeys(next.rows, s) <==> key in LiveKeys(st.rows, s) {
      KeysMember(st.rows, s, key);
      KeysMember(next.rows, s, key);
      if key in LiveKeys(st.rows, s) {
        var k :| k in st.rows && KeyHeld(st.rows, k, s, key);
        assert KeyHeld(next.rows, k, s, key);
      }
    }
    if s in next.flights {
      var k := Slot(next.flights[s].request.account, s);
      if LiveSlot(next.rows, k) { assert KeyHeld(next.rows, k, s, next.rows[k].pubkey); }
    }
  }

  lemma KeysAfterBegin(st: State, s: Server, r: Request)
    requires Keyed(st, s) && OwnKey(st.rows, Slot(r.account, s), r.pubkey)
    ensures Keyed(Step(st, Begin(s, r)), s) && Step(st, Begin(s, r)).rows == st.rows
  {
    var k := Slot(r.account, s);
    if s !in st.flights && LiveSlot(st.rows, k) {
      assert KeyHeld(st.rows, k, s, st.rows[k].pubkey);
    }
  }

  // Labels other than the upsert, the delete and the begin on s that KeysFrame covers.
  lemma KeysAfterOther(st: State, s: Server, l: Label)
    requires Keyed(st, s) && WellBehaved(st, s, Service(l)) && Pushes(st, l, s) == []
    requires !(l.Begin? && l.s == s)
    ensures Keyed(Step(st, l), s) && LiveKeys(Step(st, l).rows, s) == LiveKeys(st.rows, s)
  {
    hide Keyed, LiveKeys, FirstClear, WithBit, Pool, Admitted, SupersededRelease, HostTaken;
    KeysFrame(st, s, l);
  }

  lemma NothingApplied(keys: set<PubKey>)
    ensures ApplyAll(keys, []) == keys
  {
  }

  /** The pushes of a well-behaved step are exactly the change of the server's live keys. */
  lemma PushesFollowKeys(st: State, s: Server, l: Label)
    requires Keyed(st, s) && WellBehaved(st, s, Service(l))
    ensures Keyed(Step(st, l), s)
    ensures LiveKeys(Step(st, l).rows, s) == ApplyAll(LiveKeys(st.rows, s), Pushes(st, l, s))
  {
    hide Keyed, Step, CreatePushes, LiveKeys, ApplyAll;
    NothingApplied(LiveKeys(st.rows, s));
    if l.Begin? && l.s == s {
      KeysAfterBegin(st, s, l.request);
    } else if Pushes(st, l, s) == [] {
      KeysAfterOther(st, s, l);
    } else if l.Upsert? {
      KeyedAfterUpsert(st, s);
    } else {
      KeysAfterDelete(st, s, l.slot);
      ApplyOne(LiveKeys(st.rows, s), Remove(st.rows[l.slot].pubkey));
    }
  }

  // ---- updates that are owed ----

  function LastOn(us: seq<Update>, key: PubKey): Option<Update> {
    if us == [] then None
    else if us[|us| - 1].pubkey == key then Some(us[|us| - 1])
    else LastOn(us[..|us| - 1], key)
  }

  // The last update of a key decides.
  lemma {:induction false} LastDecides(keys: set<PubKey>, us: seq<Update>, key: PubKey)
    ensures key in ApplyAll(keys, us) <==> if LastOn(us, key) == None then key in keys else LastOn(us, key).value.Add?
    ensures LastOn(us, key).Some? ==> LastOn(us, key).value.pubkey == key
  {
    if us == [] {
    } else {
      LastDecides(keys, us[..|us| - 1], key);
    }
  }

  lemma LastOnNext(us: seq<Update>, u: Update, key: PubKey)
    ensures LastOn(us + [u], key) == if u.pubkey == key then Some(u) else LastOn(us, key)
  {
    assert (us + [u])[..|us|] == us;
  }

  lemma {:induction false} LastOnConcat(us: seq<Update>, vs: seq<Update>, key: PubKey)
    ensures LastOn(us + vs, key) == if LastOn(vs, key).Some? then LastOn(vs, key) else LastOn(us, key)
  {
    if vs == [] {
      assert us + vs == us;
    } else {
      var init := vs[..|vs| - 1];
      LastOnConcat(us, init, key);
      assert (us + vs)[..|us + vs| - 1] == us + init;
    }
  }

  // The last update of the key that is still being pushed.
  function LastOpen(ps: seq<Sending>, key: PubKey): Option<Update> {
    if ps == [] then None
    else
      var last := ps[|ps| - 1];
      if last.update.pubkey == key && Open(last) then Some(last.update) else LastOpen(ps[..|ps| - 1], key)
  }

  lemma UpdatesConcat(ps: seq<Sending>, qs: seq<Sending>)
    ensures Updates(ps + qs) == Updates(ps) + Updates(qs)
  {
  }

  lemma {:induction false} LastOnKept(ps: seq<Sending>, accepted: PubKey, key: PubKey)
    ensures LastOn(Updates(WithoutLost(ps, accepted)), key) ==
      if key == accepted then LastOpen(ps, key) else LastOn(Updates(ps), key)
  {
    if ps == [] {
    } else {
      var n := |ps| - 1;
      LastOnKept(ps[..n], accepted, key);
      assert Updates(ps) == Updates(ps[..n]) + [ps[n].update];
      LastOnNext(Updates(ps[..n]), ps[n].update, key);
      var kept := WithoutLost(ps[..n], accepted);
      LastOnNext(Updates(kept), ps[n].update, key);
      assert Updates(kept + [ps[n]]) == Updates(kept) + [ps[n].update];
      assert kept + [] == kept;
    }
  }

  // Failing, ending and releasing pushes leaves the updates owed as they are.
  lemma SameUpdates(ps: seq<Sending>, i: nat)
    requires i < |ps|
    ensures Updates(Released(ps, i)) == Updates(GivenUp(ps, i)) == Updates(Failed(ps, i)) == Updates(ps)
    ensures Updates(Released(ps[i := ps[i].(tries := Push.MAX_RETRIES)], i)) == Updates(ps)
  {
  }

  // The live keys are what the agent will hold, changed by the updates owed to it.
  ghost predicate Faithful(x: Link, s: Server) {
    && Keyed(x.st, s)
    && (x.stream.Broken? ==> x.transit == [])
    && ApplyAll(View(x), Updates(x.owed)) == LiveKeys(x.st.rows, s)
  }

  lemma FaithfulService(x: Link, s: Server, l: Label)
    requires Faithful(x, s) && WellBehaved(x.st, s, Service(l))
    ensures Faithful(Next(x, s, Service(l)), s)
  {
    hide Keyed, LiveKeys, ApplyAll, Step, WellBehaved, Pushes;
    var us := Pushes(x.st, l, s);
    PushesFollowKeys(x.st, s, l);
    UpdatesConcat(x.owed, Started(us));
    assert Updates(Started(us)) == us;
    ApplyAllConcat(View(x), Updates(x.owed), us);
  }

  // The push overtakes one of its key with the other action, and no later one of the key makes up for it.
  predicate OutOfOrder(ps: seq<Sending>, i: nat)
    requires i < |ps|
  {
    var u := ps[i].update;
    && LastOn(Updates(ps[i + 1..]), u.pubkey) == None
    && LastOpen(ps[..i], u.pubkey) != None && LastOpen(ps[..i], u.pubkey) != Some(u)
  }

  predicate Overtakes(x: Link, m: Move) {
    m.Attempt? && Ready(x.owed, m.i) && Accepts(x, m.room) && OutOfOrder(x.owed, m.i)
  }

  lemma KeyAfterAccepted(ps: seq<Sending>, i: nat, view: set<PubKey>, key: PubKey)
    requires i < |ps|
    ensures var u := ps[i].update; var after := Updates(ps[i + 1..]);
      && var accepted := ApplyAll(Apply(view, u), Updates(WithoutLost(ps[..i], u.pubkey)) + after);
      && var ordered := ApplyAll(view, Updates(ps[..i]) + [u] + after);
      && ((key in accepted <==> key in ordered) <==> key != u.pubkey || !OutOfOrder(ps, i))
  {
    var u, before, after := ps[i].update, Updates(ps[..i]), Updates(ps[i + 1..]);
    var kept := Updates(WithoutLost(ps[..i], u.pubkey));
    hide ApplyAll, LastOn, LastOpen, WithoutLost, Updates;
    LastDecides(Apply(view, u), kept + after, key);
    LastDecides(view, before + [u] + after, key);
    LastOnConcat(kept, after, key);
    LastOnConcat(before + [u], after, key);
    LastOnNext(before, u, key);
    LastOnKept(ps[..i], u.pubkey, key);
  }

  // An accepted update makes up for the lost ones of its key before it, unless it overtakes one.
  lemma AcceptedUpdates(ps: seq<Sending>, i: nat, view: set<PubKey>)
    requires i < |ps|
    ensures var u := ps[i].update; var rest := Released(ps, i);
      var accepted := ApplyAll(Apply(view, u), Updates(WithoutLost(rest[..i], u.pubkey) + rest[i + 1..]));
      accepted == ApplyAll(view, Updates(ps)) <==> !OutOfOrder(ps, i)
  {
    var u, rest := ps[i].update, Released(ps, i);
    var kept, before, after := Updates(WithoutLost(ps[..i], u.pubkey)), Updates(ps[..i]), Updates(ps[i + 1..]);
    assert rest[..i] == ps[..i] && Updates(rest[i + 1..]) == after;
    UpdatesConcat(WithoutLost(ps[..i], u.pubkey), rest[i + 1..]);
    assert Updates(ps) == before + [u] + after;
    hide ApplyAll, Apply, WithoutLost, Updates, Released, OutOfOrder;
    if OutOfOrder(ps, i) {
      KeyAfterAccepted(ps, i, view, u.pubkey);
    } else {
      forall key
        ensures key in ApplyAll(Apply(view, u), kept + after) <==> key in ApplyAll(view, before + [u] + after)
      {
        KeyAfterAccepted(ps, i, view, key);
      }
      assert ApplyAll(Apply(view, u), kept + after) == ApplyAll(view, before + [u] + after);
    }
  }

  lemma FaithfulAttempt(x: Link, s: Server, i: nat, room: bool)
    requires Faithful(x, s)
    ensures Faithful(Next(x, s, Attempt(i, room)), s) <==> !Overtakes(x, Attempt(i, room))
  {
    hide Keyed, LiveKeys, ApplyAll, Updates, Released, GivenUp, Failed, WithoutLost, OutOfOrder;
    if Ready(x.owed, i) {
      var u := x.owed[i].update;
      SameUpdates(x.owed, i);
      AcceptedUpdates(x.owed, i, View(x));
      ApplyAllConcat(x.agent, x.transit, [u]);
      ApplyOne(View(x), u);
    }
  }

  lemma FaithfulEnd(x: Link, s: Server, i: nat)
    requires Faithful(x, s)
    ensures Faithful(Next(x, s, GiveUp(i)), s) && Faithful(Next(x, s, Swallow(i)), s)
  {
    hide Keyed, LiveKeys, ApplyAll, Updates, Released, GivenUp;
    if Ready(x.owed, i) { SameUpdates(x.owed, i); }
  }

  lemma FaithfulDelivery(x: Link, s: Server)
    requires Faithful(x, s)
    ensures Faithful(Next(x, s, Deliver), s) && View(Next(x, s, Deliver)) == View(x)
  {
    if x.transit != [] {
      hide ApplyAll, LiveKeys, Keyed;
      ApplyAllConcat(x.agent, x.transit[..1], x.transit[1..]);
      assert x.transit == x.transit[..1] + x.transit[1..];
      assert x.transit[..1] == [x.transit[0]];
      ApplyOne(x.agent, x.transit[0]);
    }
  }

  lemma FaithfulBreak(x: Link, s: Server)
    requires Faithful(x, s)
    ensures Faithful(Next(x, s, Break), s)
  {
    hide ApplyAll, LiveKeys, Keyed;
    UpdatesConcat(Dropped(x.transit), x.owed);
    assert Updates(Dropped(x.transit)) == x.transit;
    ApplyAllConcat(x.agent, x.transit, Updates(x.owed));
    NothingApplied(x.agent);
  }

  lemma {:induction false} AddsOnly(keys: set<PubKey>, us: seq<Update>)
    requires forall u :: u in us ==> u.Add?
    ensures forall key :: key in ApplyAll(keys, us) <==> key in keys || Add(key) in us
  {
    if us == [] {
    } else {
      var init := us[..|us| - 1];
      AddsOnly(keys, init);
      assert us == init + [us[|us| - 1]];
    }
  }

  lemma ReplayedView(x: Link, s: Server, replay: seq<Update>)
    requires Faithful(x, s) && x.stream.Broken? && CatchUp(x.st.rows, s, replay)
    ensures View(Next(x, s, List(replay))) == x.agent + LiveKeys(x.st.rows, s)
  {
    hide ApplyAll, LiveKeys;
    AddsOnly(x.agent, replay);
  }

  lemma FaithfulList(x: Link, s: Server, replay: seq<Update>)
    requires Faithful(x, s) && x.stream.Broken? && CatchUp(x.st.rows, s, replay)
    ensures Faithful(Next(x, s, List(replay)), s)
  {
    ReplayedView(x, s, replay);
    hide ApplyAll, LiveKeys, Keyed, CatchUp, LastOn;
    var live := LiveKeys(x.st.rows, s);
    NothingApplied(x.agent);
    forall key
      ensures key in ApplyAll(x.agent + live, Updates(x.owed)) <==> key in live
    {
      LastDecides(x.agent, Updates(x.owed), key);
      LastDecides(x.agent + live, Updates(x.owed), key);
    }
  }

  /** Whatever comes of a push and of the connection, a well-behaved move keeps the live keys what the agent will hold
      changed by the updates owed to it, if and only if it is not an attempt that overtakes. */
  lemma MoveFaithful(x: Link, s: Server, m: Move)
    requires Faithful(x, s) && WellBehaved(x.st, s, m)
    ensures Faithful(Next(x, s, m), s) <==> !Overtakes(x, m)
  {
    match m
    case Service(l) => FaithfulService(x, s, l);
    case Attempt(i, room) => FaithfulAttempt(x, s, i, room);
    case GiveUp(i) => FaithfulEnd(x, s, i);
    case Swallow(i) => FaithfulEnd(x, s, i);
    case Deliver => FaithfulDelivery(x, s);
    case Break => FaithfulBreak(x, s);
    case List(replay) =>
      if x.stream.Broken? && replay != [] && CatchUp(x.st.rows, s, replay) { FaithfulList(x, s, replay); }
    case Subscribe =>
  }

  // A replacement by a create on s that brings another key.
  predicate Replaces(st: State, s: Server) {
    && s in st.flights && st.flights[s].phase.Holding? && !UpsertRefused(st, s)
    && st.flights[s].replaced.Some? && st.flights[s].replaced.value.pubkey != st.flights[s].request.pubkey
  }

  lemma ReplacementIsOwed(x: Link, s: Server)
    requires Replaces(x.st, s)
    ensures var f := x.st.flights[s];
      Next(x, s, Service(Upsert(s))) == x.(st := Step(x.st, Upsert(s)), owed := x.owed +
        [Sending(Remove(f.replaced.value.pubkey), 0, false), Sending(Add(f.request.pubkey), 0, true)])
  {
    hide Step;
    var f := x.st.flights[s];
    var us := Pushes(x.st, Upsert(s), s);
    assert us == [Remove(f.replaced.value.pubkey), Add(f.request.pubkey)];
    assert Started(us) == [Sending(us[0], 0, false), Sending(us[1], 0, true)];
  }

  /** A replacement removes the superseded key before it adds the new one: no attempt for the new key is made before
      the removal was accepted, both then reach the agent in that order, and a removal that is given up takes the ADD
      with it. */
  lemma ReplacementRemovesFirst(x: Link, s: Server, room: bool)
    requires Replaces(x.st, s) && x.stream.Subscribed?
    ensures var f := x.st.flights[s]; var n := |x.owed|;
      var y := Next(x, s, Service(Upsert(s)));
      var z := Next(y, s, Attempt(n, true)); var m := |z.owed| - 1;
      && Next(y, s, Attempt(n + 1, room)) == y
      && Next(y, s, GiveUp(n)).transit == x.transit && (forall i :: n <= i < n + 2 ==> !Open(Next(y, s, GiveUp(n)).owed[i]))
      && |Next(y, s, GiveUp(n)).owed| == n + 2
      && z.transit == x.transit + [Remove(f.replaced.value.pubkey)] && m >= 0
      && Next(z, s, Attempt(m, true)).transit == z.transit + [Add(f.request.pubkey)]
  {
    hide Step, WithoutLost, Replaces;
    ReplacementIsOwed(x, s);
  }

  // Every move is well behaved, and no push overtakes another.
  ghost predicate WellBehavedRun(x: Link, s: Server, ms: seq<Move>) {
    forall i :: 0 <= i < |ms| ==> WellBehaved(RunLink(x, s, ms[..i]).st, s, ms[i]) && !Overtakes(RunLink(x, s, ms[..i]), ms[i])
  }

  lemma {:induction false} RunFaithful(x: Link, s: Server, ms: seq<Move>)
    requires Faithful(x, s) && WellBehavedRun(x, s, ms)
    ensures Faithful(RunLink(x, s, ms), s)
  {
    hide Faithful, Next, WellBehaved, Overtakes;
    if ms == [] {
    } else {
      var n := |ms| - 1;
      var init := ms[..n];
      assert forall i :: 0 <= i < n ==> init[..i] == ms[..i];
      RunFaithful(x, s, init);
      MoveFaithful(RunLink(x, s, init), s, ms[n]);
    }
  }

  // An owed update that is the last of its key has no effect on the keys.
  predicate Harmless(owed: seq<Update>, view: set<PubKey>) {
    forall u :: u in owed && LastOn(owed, u.pubkey) == Some(u) ==> (u.Add? <==> u.pubkey in view)
  }

  lemma {:induction false} LastOnIsMember(us: seq<Update>, key: PubKey)
    ensures LastOn(us, key).Some? ==> LastOn(us, key).value in us && LastOn(us, key).value.pubkey == key
  {
    if us == [] {
    } else {
      LastOnIsMember(us[..|us| - 1], key);
    }
  }

  lemma HarmlessIffUnchanged(owed: seq<Update>, view: set<PubKey>)
    ensures Harmless(owed, view) <==> ApplyAll(view, owed) == view
  {
    hide ApplyAll, LastOn;
    forall u | u in owed && LastOn(owed, u.pubkey) == Some(u)
      ensures u.pubkey in ApplyAll(view, owed) <==> u.Add?
    {
      LastDecides(view, owed, u.pubkey);
    }
    if Harmless(owed, view) {
      forall key ensures key in ApplyAll(view, owed) <==> key in view {
        LastDecides(view, owed, key);
        LastOnIsMember(owed, key);
      }
    }
  }

  /** In every well-behaved run, whatever attempts fail, with connections breaking and coming back at any point: the
      agent, once it has applied what is in transit, holds exactly the public keys of the server's pending and active
      rows if and only if every update still owed to it that is the last of its key is harmless: an ADD of a key it
      has, or a REMOVE of one it has not. */
  lemma MirrorsIffOwedIsHarmless(s: Server, ms: seq<Move>)
    requires WellBehavedRun(IDLE, s, ms)
    ensures var x := RunLink(IDLE, s, ms);
      View(x) == LiveKeys(x.st.rows, s) <==> Harmless(Updates(x.owed), View(x))
  {
    RunFaithful(IDLE, s, ms);
    hide RunLink, ApplyAll, LiveKeys, Harmless, Updates;
    var x := RunLink(IDLE, s, ms);
    HarmlessIffUnchanged(Updates(x.owed), View(x));
  }

  // The move loses an update: the connection breaks under it, its push ends without success, or a queue that nobody
  // reads takes it.
  predicate Loses(x: Link, m: Move) {
    match m
    case Break => x.transit != []
    case Attempt(i, room) => Ready(x.owed, i) && !Accepts(x, room) && x.owed[i].tries + 1 >= Push.MAX_RETRIES
    case GiveUp(i) => Ready(x.owed, i)
    case Swallow(i) => Ready(x.owed, i) && !x.stream.Subscribed?
    case _ => false
  }

  ghost predicate LosesNothing(x: Link, s: Server, ms: seq<Move>) {
    forall i :: 0 <= i < |ms| ==> !Loses(RunLink(x, s, ms[..i]), ms[i])
  }

  predicate AllOpen(ps: seq<Sending>) {
    forall i :: 0 <= i < |ps| ==> Open(ps[i])
  }

  lemma {:induction false} WithoutLostStaysOpen(ps: seq<Sending>, key: PubKey)
    requires AllOpen(ps)
    ensures AllOpen(WithoutLost(ps, key))
  {
    if ps == [] {
    } else {
      WithoutLostStaysOpen(ps[..|ps| - 1], key);
    }
  }

  lemma StaysOpen(x: Link, s: Server, m: Move)
    requires AllOpen(x.owed) && !Loses(x, m)
    ensures AllOpen(Next(x, s, m).owed)
  {
    hide Step, Pushes, Apply, CatchUp;
    if m.Attempt? && Ready(x.owed, m.i) && Accepts(x, m.room) {
      var ps := Released(x.owed, m.i);
      assert AllOpen(ps[..m.i]);
      WithoutLostStaysOpen(ps[..m.i], x.owed[m.i].update.pubkey);
    }
  }

  lemma {:induction false} StayOpen(x: Link, s: Server, ms: seq<Move>)
    requires AllOpen(x.owed) && LosesNothing(x, s, ms)
    ensures AllOpen(RunLink(x, s, ms).owed)
  {
    hide Next, Loses, AllOpen;
    if ms == [] {
    } else {
      var n := |ms| - 1;
      var init := ms[..n];
      assert forall i :: 0 <= i < n ==> init[..i] == ms[..i];
      StayOpen(x, s, init);
      StaysOpen(RunLink(x, s, init), s, ms[n]);
    }
  }

  /** So when no update was lost, every push has ended and nothing is in transit, the agent holds exactly the live
      keys, however many attempts the pushes took. */
  lemma DrainedAgentMirrors(s: Server, ms: seq<Move>)
    requires WellBehavedRun(IDLE, s, ms) && LosesNothing(IDLE, s, ms)
    requires var x := RunLink(IDLE, s, ms); x.transit == [] && forall p :: p in x.owed ==> !Open(p)
    ensures var x := RunLink(IDLE, s, ms); x.agent == LiveKeys(x.st.rows, s)
  {
    RunFaithful(IDLE, s, ms);
    StayOpen(IDLE, s, ms);
    hide RunLink, LiveKeys;
    var x := RunLink(IDLE, s, ms);
    NothingApplied(x.agent);
  }

  /** A reconnection's replay only adds: it makes up for the broken connection exactly when the last update owed for
      each key the agent still holds is no removal. */
  lemma ReplayMirrorsIff(x: Link, s: Server, replay: seq<Update>)
    requires Faithful(x, s) && x.stream.Broken? && CatchUp(x.st.rows, s, replay)
    ensures View(Next(x, s, List(replay))) == LiveKeys(x.st.rows, s)
      <==> forall key :: key in x.agent ==> LastOn(Updates(x.owed), key) != Some(Remove(key))
    ensures View(Next(x, s, List(replay))) == LiveKeys(x.st.rows, s) <==> x.agent <= LiveKeys(x.st.rows, s)
  {
    ReplayedView(x, s, replay);
    hide ApplyAll, LiveKeys, Keyed, CatchUp, LastOn, Updates;
    NothingApplied(x.agent);
    forall key | key in x.agent
      ensures key in LiveKeys(x.st.rows, s) <==> LastOn(Updates(x.owed), key) != Some(Remove(key))
    {
      LastDecides(x.agent, Updates(x.owed), key);
    }
    if forall key :: key in x.agent ==> LastOn(Updates(x.owed), key) != Some(Remove(key)) {
      assert x.agent <= LiveKeys(x.st.rows, s);
    }
  }

  function Attempts(x: Link, s: Server, i: nat, room: bool, t: nat): Link {
    if t == 0 then x else Next(Attempts(x, s, i, room, t - 1), s, Attempt(i, room))
  }

  // A push whose attempts fail counts them, and is lost with the third.
  lemma {:induction false} FailingAttempts(x: Link, s: Server, i: nat, room: bool, t: nat)
    requires Ready(x.owed, i) && x.owed[i].tries == 0 && i + 1 == |x.owed| && !Accepts(x, room)
    requires t <= Push.MAX_RETRIES
    ensures Attempts(x, s, i, room, t) == x.(owed := x.owed[i := x.owed[i].(tries := t)])
  {
    if t == 0 {
    } else {
      FailingAttempts(x, s, i, room, t - 1);
    }
  }

  /** A peer deleted between the listing and the subscription stays on the agent if and only if all three attempts of
      the push fall between them; else the next attempt after the subscription takes it away. */
  lemma DeleteBeforeSubscribing(x: Link, s: Server, k: Slot, t: nat)
    requires Faithful(x, s) && x.stream.Listed? && LiveSlot(x.st.rows, k) && k.server == s
    requires x.st.rows[k].pubkey in View(x) && t <= Push.MAX_RETRIES
    ensures var tried := Attempts(Next(x, s, Service(Delete(k))), s, |x.owed|, true, t);
      var z := Next(Next(tried, s, Subscribe), s, Attempt(|x.owed|, true));
      && x.st.rows[k].pubkey !in LiveKeys(z.st.rows, s)
      && (x.st.rows[k].pubkey in View(z) <==> t == Push.MAX_RETRIES)
  {
    hide ApplyAll, LiveKeys, Step, WithoutLost, Keyed;
    var y, n := Next(x, s, Service(Delete(k))), |x.owed|;
    var removal := Remove(x.st.rows[k].pubkey);
    KeysAfterDelete(x.st, s, k);
    assert y.owed == x.owed + [Sending(removal, 0, false)];
    FailingAttempts(y, s, n, true, t);
    ApplyAllConcat(x.agent, x.transit, [removal]);
    ApplyOne(View(x), removal);
  }

  /** While a full queue is not read, a push to a subscribed agent is lost with its third attempt. */
  lemma FullQueueLoses(x: Link, s: Server)
    requires x.stream.Subscribed? && |x.transit| >= PeerHub.QUEUE_SIZE && x.owed != []
    requires Ready(x.owed, |x.owed| - 1) && x.owed[|x.owed| - 1].tries == 0
    ensures var n := |x.owed| - 1; var y := Attempts(x, s, n, false, Push.MAX_RETRIES);
      && View(y) == View(x) && Updates(y.owed) == Updates(x.owed) && !Open(y.owed[n])
      && Loses(Attempts(x, s, n, false, Push.MAX_RETRIES - 1), Attempt(n, false))
  {
    FailingAttempts(x, s, |x.owed| - 1, false, Push.MAX_RETRIES - 1);
    FailingAttempts(x, s, |x.owed| - 1, false, Push.MAX_RETRIES);
  }
}
