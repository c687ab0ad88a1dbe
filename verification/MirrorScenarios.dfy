/** Runs from the idle system in which a removal is lost, or overtakes the ADD, and the agent keeps the peer, and one in
    which it is retried in time. */
module MirrorScenarios {
  import opened AddressPool
  import opened Entitlement
  import opened Provisioning
  import Push
  import opened AgentMirror
  import opened ProvisioningScenarios

  lemma RunLinkThen(x: Link, s: Server, ms: seq<Move>, m: Move)
    ensures RunLink(x, s, ms + [m]) == Next(RunLink(x, s, ms), s, m)
  {
    hide Next;
    assert (ms + [m])[..|ms|] == ms;
  }

  lemma {:induction false} RunLinkConcat(x: Link, s: Server, ms: seq<Move>, ns: seq<Move>)
    ensures RunLink(x, s, ms + ns) == RunLink(RunLink(x, s, ms), s, ns)
  {
    hide Next;
    if ns == [] {
      assert ms + ns == ms;
    } else {
      var init := ns[..|ns| - 1];
      RunLinkConcat(x, s, ms, init);
      assert (ms + ns)[..|ms + ns| - 1] == ms + init;
    }
  }

  // A service step that pushes nothing.
  lemma Quietly(st: State, s: Server, l: Label)
    requires l.Begin? || l.Allocate? || l.Check?
    ensures Next(Link(st, {}, [], Subscribed, []), s, Service(l)) == Link(Step(st, l), {}, [], Subscribed, [])
  {
    hide Step;
    assert [] + Started(Pushes(st, l, s)) == [];
  }

  // A first account connects to s, and its ADD is to be pushed.
  function Joining(s: Server, a: Account, key: PubKey): seq<Move> {
    var r := Ask(a, TIER_FREE, key);
    [Service(Begin(s, r)), Service(Allocate(s)), Service(Check(s)), Service(Upsert(s))]
  }

  lemma FirstReserves(s: Server, a: Account, key: PubKey)
    ensures var r := Ask(a, TIER_FREE, key);
      Step(Step(Step(INITIAL, Begin(s, r)), Allocate(s)), Check(s)) == Reserving(INITIAL, s, r, 2)
  {
    hide Run, Step, Admitted, FirstClear, Reserving, WithBit;
    var r := Ask(a, TIER_FREE, key);
    assert PeersOf(INITIAL.rows, a) == {};
    AskIsAdmitted(INITIAL.rows, a, TIER_FREE, key);
    FirstBit();
    ReservesAddress(INITIAL, s, r, 2);
    RunThree(INITIAL, Begin(s, r), Allocate(s), Check(s));
  }

  lemma RunLinkNothing(x: Link, s: Server)
    ensures RunLink(x, s, []) == x
  {
  }

  lemma FourMoves(x: Link, s: Server, a: Move, b: Move, c: Move, d: Move)
    ensures RunLink(x, s, [a, b, c, d]) == Next(Next(Next(Next(x, s, a), s, b), s, c), s, d)
  {
    RunLinkNothing(x, s);
    hide Next, RunLink;
    RunLinkThen(x, s, [], a);
    RunLinkThen(x, s, [a], b);
    RunLinkThen(x, s, [a, b], c);
    RunLinkThen(x, s, [a, b, c], d);
    assert [] + [a] == [a] && [a] + [b] == [a, b] && [a, b] + [c] == [a, b, c] && [a, b, c] + [d] == [a, b, c, d];
  }

  lemma UpsertIsPushed(s: Server, a: Account, key: PubKey)
    ensures var r := Ask(a, TIER_FREE, key);
      Next(Link(Reserving(INITIAL, s, r, 2), {}, [], Subscribed, []), s, Service(Upsert(s))) ==
        Link(Connected(s, a, key), {}, [], Subscribed, [Sending(Add(key), 0, false)])
  {
    hide FirstClear, WithBit;
    var r := Ask(a, TIER_FREE, key);
    UpsertsReserved(INITIAL, s, r, 2);
    FirstIsConnected(s, a, TIER_FREE, key);
    assert Pushes(Reserving(INITIAL, s, r, 2), Upsert(s), s) == [Add(key)];
    assert [] + Started([Add(key)]) == [Sending(Add(key), 0, false)];
    hide Step, Reserving, Pushes, Connected;
  }

  lemma Joins(s: Server, a: Account, key: PubKey)
    ensures RunLink(IDLE, s, Joining(s, a, key)) ==
      Link(Connected(s, a, key), {}, [], Subscribed, [Sending(Add(key), 0, false)])
  {
    var r := Ask(a, TIER_FREE, key);
    var ms := [Service(Begin(s, r)), Service(Allocate(s)), Service(Check(s))];
    FirstReserves(s, a, key);
    hide Step, Run, Next, Reserving, Connected, Pushes;
    var one, two := Step(INITIAL, Begin(s, r)), Step(Step(INITIAL, Begin(s, r)), Allocate(s));
    Quietly(INITIAL, s, Begin(s, r));
    Quietly(one, s, Allocate(s));
    Quietly(two, s, Check(s));
    FourMoves(IDLE, s, ms[0], ms[1], ms[2], Service(Upsert(s)));
    UpsertIsPushed(s, a, key);
  }

  // The row is removed, the push of its removal has ended, nothing is in transit, and the connection stands.
  predicate Settled(x: Link, s: Server) {
    && x.stream.Subscribed? && x.transit == [] && LiveKeys(x.st.rows, s) == {}
    && forall i :: 0 <= i < |x.owed| ==> !Open(x.owed[i])
  }

  lemma ConnectedKeys(s: Server, a: Account, key: PubKey)
    ensures LiveKeys(Connected(s, a, key).rows, s) == {key}
    ensures LiveKeys(Step(Connected(s, a, key), Delete(Slot(a, s))).rows, s) == {}
    ensures Pushes(Connected(s, a, key), Delete(Slot(a, s)), s) == [Remove(key)]
  {
    hide FirstClear, WithBit;
    assert LiveSlot(Connected(s, a, key).rows, Slot(a, s));
  }

  // The agent gets the peer and its connection breaks.
  function Breaking(s: Server, a: Account, key: PubKey): seq<Move> {
    Joining(s, a, key) + [Attempt(0, true), Deliver, Break]
  }

  lemma ThreeMoves(x: Link, s: Server, a: Move, b: Move, c: Move)
    ensures RunLink(x, s, [a, b, c]) == Next(Next(Next(x, s, a), s, b), s, c)
  {
    RunLinkNothing(x, s);
    hide Next, RunLink;
    RunLinkThen(x, s, [], a);
    RunLinkThen(x, s, [a], b);
    RunLinkThen(x, s, [a, b], c);
    assert [] + [a] == [a] && [a] + [b] == [a, b] && [a, b] + [c] == [a, b, c];
  }

  lemma Breaks(s: Server, a: Account, key: PubKey)
    ensures RunLink(IDLE, s, Breaking(s, a, key)) == Link(Connected(s, a, key), {key}, [], Broken, [])
  {
    hide RunLink, Connected, Joining;
    Joins(s, a, key);
    var x := Link(Connected(s, a, key), {}, [], Subscribed, [Sending(Add(key), 0, false)]);
    ThreeMoves(x, s, Attempt(0, true), Deliver, Break);
    RunLinkConcat(IDLE, s, Joining(s, a, key), [Attempt(0, true), Deliver, Break]);
    assert Next(x, s, Attempt(0, true)) == Link(Connected(s, a, key), {}, [Add(key)], Subscribed, []);
    assert [Add(key)][1..] == [] && Dropped([]) + [] == [];
  }

  // The row is gone; t attempts to push its removal have failed.
  function Leaving(s: Server, a: Account, key: PubKey, transit: seq<Update>, stream: Stream, t: nat): Link {
    Link(Step(Connected(s, a, key), Delete(Slot(a, s))), {key}, transit, stream, [Sending(Remove(key), t, false)])
  }

  lemma DeleteIsPushed(s: Server, a: Account, key: PubKey, transit: seq<Update>, stream: Stream)
    ensures Next(Link(Connected(s, a, key), {key}, transit, stream, []), s, Service(Delete(Slot(a, s)))) ==
      Leaving(s, a, key, transit, stream, 0)
  {
    ConnectedKeys(s, a, key);
    hide Step, Connected, Pushes;
    assert [] + Started([Remove(key)]) == [Sending(Remove(key), 0, false)];
  }

  lemma AttemptFails(s: Server, a: Account, key: PubKey, transit: seq<Update>, stream: Stream, t: nat)
    requires t < Push.MAX_RETRIES && !stream.Subscribed?
    ensures Next(Leaving(s, a, key, transit, stream, t), s, Attempt(0, true)) == Leaving(s, a, key, transit, stream, t + 1)
  {
    hide Step, Connected;
  }

  // A delete and the three attempts of its push, all of which fail.
  function Unheard(s: Server, a: Account): seq<Move> {
    [Service(Delete(Slot(a, s))), Attempt(0, true), Attempt(0, true), Attempt(0, true)]
  }

  lemma NobodyHears(s: Server, a: Account, key: PubKey, transit: seq<Update>, stream: Stream)
    requires !stream.Subscribed?
    ensures RunLink(Link(Connected(s, a, key), {key}, transit, stream, []), s, Unheard(s, a)) ==
      Leaving(s, a, key, transit, stream, 3)
  {
    hide RunLink, Next, Leaving, Connected;
    var x := Link(Connected(s, a, key), {key}, transit, stream, []);
    FourMoves(x, s, Service(Delete(Slot(a, s))), Attempt(0, true), Attempt(0, true), Attempt(0, true));
    DeleteIsPushed(s, a, key, transit, stream);
    AttemptFails(s, a, key, transit, stream, 0);
    AttemptFails(s, a, key, transit, stream, 1);
    AttemptFails(s, a, key, transit, stream, 2);
  }

  lemma ReconnectsTooLate(s: Server, a: Account, key: PubKey)
    ensures var x := Next(Next(Leaving(s, a, key, [], Broken, 3), s, List([])), s, Subscribe);
      Settled(x, s) && x.agent == {key}
  {
    ConnectedKeys(s, a, key);
    hide Connected, Step, LiveKeys;
  }

  lemma TwoMoreMoves(x: Link, s: Server, ms: seq<Move>, a: Move, b: Move)
    ensures RunLink(x, s, ms + [a, b]) == Next(Next(RunLink(x, s, ms), s, a), s, b)
  {
    hide RunLink, Next;
    RunLinkThen(x, s, ms, a);
    RunLinkThen(x, s, ms + [a], b);
    assert ms + [a] + [b] == ms + [a, b];
  }

  /** The connection breaks, the peer is deleted, the agent comes back after the last attempt: the replay cannot take
      the peer away. */
  lemma RemovalLostWhileBroken(s: Server, a: Account, key: PubKey)
    ensures var x := RunLink(IDLE, s, Breaking(s, a, key) + Unheard(s, a) + [List([]), Subscribe]);
      Settled(x, s) && x.agent == {key}
  {
    hide RunLink, Next, Leaving, Connected, Settled, Breaking, Unheard;
    Breaks(s, a, key);
    NobodyHears(s, a, key, [], Broken);
    RunLinkConcat(IDLE, s, Breaking(s, a, key), Unheard(s, a));
    TwoMoreMoves(IDLE, s, Breaking(s, a, key) + Unheard(s, a), List([]), Subscribe);
    ReconnectsTooLate(s, a, key);
  }

  lemma Relists(s: Server, a: Account, key: PubKey)
    ensures RunLink(IDLE, s, Breaking(s, a, key) + [List([Add(key)])]) ==
      Link(Connected(s, a, key), {key}, [Add(key)], Listed, [])
  {
    Breaks(s, a, key);
    ConnectedKeys(s, a, key);
    hide RunLink, Connected, Breaking, LiveKeys;
    assert CatchUp(Connected(s, a, key).rows, s, [Add(key)]);
    RunLinkThen(IDLE, s, Breaking(s, a, key), List([Add(key)]));
  }

  lemma SubscribesTooLate(s: Server, a: Account, key: PubKey)
    ensures var x := Next(Next(Leaving(s, a, key, [Add(key)], Listed, 3), s, Subscribe), s, Deliver);
      Settled(x, s) && x.agent == {key}
  {
    ConnectedKeys(s, a, key);
    hide Connected, Step, LiveKeys;
  }

  /** The agent comes back, and the peer is deleted and all three attempts are made between the listing and the
      subscription. */
  lemma RemovalLostBeforeSubscribing(s: Server, a: Account, key: PubKey)
    ensures var x := RunLink(IDLE, s, Breaking(s, a, key) + [List([Add(key)])] + Unheard(s, a) + [Subscribe, Deliver]);
      Settled(x, s) && x.agent == {key}
  {
    hide RunLink, Next, Leaving, Connected, Settled, Breaking, Unheard;
    Relists(s, a, key);
    NobodyHears(s, a, key, [Add(key)], Listed);
    var listed := Breaking(s, a, key) + [List([Add(key)])];
    RunLinkConcat(IDLE, s, listed, Unheard(s, a));
    TwoMoreMoves(IDLE, s, listed + Unheard(s, a), Subscribe, Deliver);
    SubscribesTooLate(s, a, key);
  }

  lemma ThirdAttemptIsHeard(s: Server, a: Account, key: PubKey)
    ensures var y := Next(Leaving(s, a, key, [Add(key)], Listed, 2), s, Subscribe);
      Next(Next(Next(y, s, Attempt(0, true)), s, Deliver), s, Deliver) ==
        Link(Step(Connected(s, a, key), Delete(Slot(a, s))), {}, [], Subscribed, [])
  {
    hide Step, Connected;
    var y := Next(Leaving(s, a, key, [Add(key)], Listed, 2), s, Subscribe);
    var heard := Next(y, s, Attempt(0, true));
    assert heard.owed == [] && heard.transit == [Add(key), Remove(key)];
    assert [Add(key), Remove(key)][1..] == [Remove(key)] && [Remove(key)][1..] == [];
    assert {key} + {key} == {key} && {key} - {key} == {};
  }

  /** One attempt less in that window, and the third one reaches the agent: the peer goes. */
  lemma RemovalRetriedInTime(s: Server, a: Account, key: PubKey)
    ensures var x := RunLink(IDLE, s, Breaking(s, a, key) + [List([Add(key)])] +
                                      [Service(Delete(Slot(a, s))), Attempt(0, true), Attempt(0, true), Subscribe] +
                                      [Attempt(0, true), Deliver, Deliver]);
      Settled(x, s) && x.agent == {}
  {
    Relists(s, a, key);
    ConnectedKeys(s, a, key);
    DeleteIsPushed(s, a, key, [Add(key)], Listed);
    AttemptFails(s, a, key, [Add(key)], Listed, 0);
    AttemptFails(s, a, key, [Add(key)], Listed, 1);
    ThirdAttemptIsHeard(s, a, key);
    hide RunLink, Next, Leaving, Connected, Step, LiveKeys, Breaking;
    var listed, delete := Breaking(s, a, key) + [List([Add(key)])], Service(Delete(Slot(a, s)));
    var window := [delete, Attempt(0, true), Attempt(0, true), Subscribe];
    var x := Link(Connected(s, a, key), {key}, [Add(key)], Listed, []);
    FourMoves(x, s, delete, Attempt(0, true), Attempt(0, true), Subscribe);
    RunLinkConcat(IDLE, s, listed, window);
    RunLinkConcat(IDLE, s, listed + window, [Attempt(0, true), Deliver, Deliver]);
    ThreeMoves(RunLink(IDLE, s, listed + window), s, Attempt(0, true), Deliver, Deliver);
  }

  lemma RemovalIsFirst(s: Server, a: Account, key: PubKey)
    ensures var y := Link(Step(Connected(s, a, key), Delete(Slot(a, s))), {}, [], Subscribed,
                          [Sending(Add(key), 0, false), Sending(Remove(key), 0, false)]);
      && Overtakes(y, Attempt(1, true))
      && Next(Next(y, s, Attempt(1, true)), s, Attempt(0, true)) == y.(transit := [Remove(key), Add(key)], owed := [])
  {
    hide Step, Connected;
    var ps := [Sending(Add(key), 0, false), Sending(Remove(key), 0, false)];
    assert ps[..1] == [ps[0]] && ps[2..] == [] && ps[..0] == [] && [ps[0]][..0] == [];
    assert WithoutLost(ps[..1], key) == [] + [ps[0]];
    assert [ps[0]][1..] == [] && [Remove(key)] + [Add(key)] == [Remove(key), Add(key)];
  }

  lemma DeletedBeforeAdded(s: Server, a: Account, key: PubKey)
    ensures RunLink(IDLE, s, Joining(s, a, key) + [Service(Delete(Slot(a, s)))]) ==
      Link(Step(Connected(s, a, key), Delete(Slot(a, s))), {}, [], Subscribed,
           [Sending(Add(key), 0, false), Sending(Remove(key), 0, false)])
  {
    Joins(s, a, key);
    ConnectedKeys(s, a, key);
    hide RunLink, Step, Connected, Pushes, Joining;
    RunLinkThen(IDLE, s, Joining(s, a, key), Service(Delete(Slot(a, s))));
    assert Started([Remove(key)]) == [Sending(Remove(key), 0, false)];
    assert [Sending(Add(key), 0, false)] + [Sending(Remove(key), 0, false)] ==
      [Sending(Add(key), 0, false), Sending(Remove(key), 0, false)];
  }

  /** Without any failure: the two pushes of a create and a delete are made in the other order, and the agent keeps
      the deleted peer. */
  lemma RemovalOvertakesAdd(s: Server, a: Account, key: PubKey)
    ensures var joined := Joining(s, a, key) + [Service(Delete(Slot(a, s)))];
      var x := RunLink(IDLE, s, joined + [Attempt(1, true), Attempt(0, true), Deliver, Deliver]);
      && Overtakes(RunLink(IDLE, s, joined), Attempt(1, true))
      && Settled(x, s) && x.agent == {key}
  {
    var joined := Joining(s, a, key) + [Service(Delete(Slot(a, s)))];
    DeletedBeforeAdded(s, a, key);
    RemovalIsFirst(s, a, key);
    ConnectedKeys(s, a, key);
    hide RunLink, Step, Connected, Joining, LiveKeys, Overtakes, Accepted, Ready;
    RunLinkConcat(IDLE, s, joined, [Attempt(1, true), Attempt(0, true), Deliver, Deliver]);
    FourMoves(RunLink(IDLE, s, joined), s, Attempt(1, true), Attempt(0, true), Deliver, Deliver);
    assert [Remove(key), Add(key)][1..] == [Add(key)] && [Add(key)][1..] == [];
  }
}
