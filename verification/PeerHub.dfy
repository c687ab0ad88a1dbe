/** The hub that fans peer updates out to the agents' streams through bounded queues. */
module PeerHub {
  import opened Text

  type Server = string
  type SubId = nat

  datatype PeerUpdate = PeerUpdate(action: string, peerId: string, publicKey: string, presharedKey: string,
                                   allowedIPs: seq<string>)

  const QUEUE_SIZE := 32

  // A subscriber's channel stays readable after it unsubscribed, so queues outlive subscriptions.
  datatype State = State(subs: map<Server, set<SubId>>, queues: map<SubId, seq<PeerUpdate>>)

  const EMPTY := State(map[], map[])

  datatype Label =
    | Subscribe(server: Server, id: SubId)
    | Unsubscribe(server: Server, id: SubId)
    | Publish(server: Server, update: PeerUpdate)
    | Receive(id: SubId)

  function Subscribers(st: State, s: Server): set<SubId> {
    if s in st.subs then st.subs[s] else {}
  }

  predicate HasRoom(queues: map<SubId, seq<PeerUpdate>>, id: SubId) {
    id in queues && |queues[id]| < QUEUE_SIZE
  }

  predicate Accepts(st: State, s: Server, id: SubId) {
    id in Subscribers(st, s) && HasRoom(st.queues, id)
  }

  function Published(st: State, s: Server, u: PeerUpdate): map<SubId, seq<PeerUpdate>> {
    map id | id in st.queues :: if Accepts(st, s, id) then st.queues[id] + [u] else st.queues[id]
  }

  function Unsubscribed(st: State, s: Server, id: SubId): map<Server, set<SubId>> {
    if s !in st.subs then st.subs
    else if st.subs[s] - {id} == {} then st.subs - {s}
    else st.subs[s := st.subs[s] - {id}]
  }

  // A channel is new when it is subscribed; a label that is not enabled changes nothing.
  function Step(st: State, l: Label): State {
    match l
    case Subscribe(s, id) =>
      if id in st.queues then st
      else State(st.subs[s := Subscribers(st, s) + {id}], st.queues[id := []])
    case Unsubscribe(s, id) => st.(subs := Unsubscribed(st, s, id))
    case Publish(s, u) => st.(queues := Published(st, s, u))
    case Receive(id) =>
      if id in st.queues && st.queues[id] != [] then st.(queues := st.queues[id := st.queues[id][1..]]) else st
  }

  function Run(st: State, ls: seq<Label>): State {
    if ls == [] then st else Step(Run(st, ls[..|ls| - 1]), ls[|ls| - 1])
  }

  // What a subscriber's stream has taken from its channel.
  function Received(ls: seq<Label>, id: SubId): seq<PeerUpdate> {
    if ls == [] then []
    else
      var n := |ls| - 1;
      var before := Run(EMPTY, ls[..n]);
      var got := Received(ls[..n], id);
      if ls[n] == Receive(id) && id in before.queues && before.queues[id] != [] then got + [before.queues[id][0]]
      else got
  }

  ghost predicate WellFormed(st: State) {
    && (forall s :: s in st.subs ==> st.subs[s] != {} && forall id :: id in st.subs[s] ==> id in st.queues)
    && (forall s, t, id :: s in st.subs && t in st.subs && id in st.subs[s] && id in st.subs[t] ==> s == t)
  }

  lemma StepWellFormed(st: State, l: Label)
    requires WellFormed(st)
    ensures WellFormed(Step(st, l))
  {
  }

  /** In every run, no server key maps to an empty subscriber set. */
  lemma {:induction false} NoEmptySubscriberSet(ls: seq<Label>)
    ensures WellFormed(Run(EMPTY, ls))
  {
    if ls == [] {
    } else {
      NoEmptySubscriberSet(ls[..|ls| - 1]);
      StepWellFormed(Run(EMPTY, ls[..|ls| - 1]), ls[|ls| - 1]);
    }
  }

  /** One subscriber on its own, as the labels alone tell it: the updates published to its server while it
      was subscribed, without those that met 32 updates still waiting, and how many it has taken. */
  datatype Lane = Lane(server: Server, subscribed: bool, kept: seq<PeerUpdate>, taken: nat)

  function LaneStep(lane: Option<Lane>, l: Label, id: SubId): Option<Lane> {
    match lane
    case None => if l.Subscribe? && l.id == id then Some(Lane(l.server, true, [], 0)) else None
    case Some(x) =>
      match l
      case Publish(s, u) =>
        if x.subscribed && s == x.server && |x.kept| < x.taken + QUEUE_SIZE then Some(x.(kept := x.kept + [u])) else lane
      case Receive(i) => if i == id && x.taken < |x.kept| then Some(x.(taken := x.taken + 1)) else lane
      case Unsubscribe(s, i) => if i == id && s == x.server then Some(x.(subscribed := false)) else lane
      case Subscribe(_, _) => lane
  }

  function LaneAfter(ls: seq<Label>, id: SubId): Option<Lane> {
    if ls == [] then None else LaneStep(LaneAfter(ls[..|ls| - 1], id), ls[|ls| - 1], id)
  }

  // The shared state and the history agree with the lane.
  ghost predicate OnLane(st: State, got: seq<PeerUpdate>, id: SubId, lane: Option<Lane>) {
    match lane
    case None => id !in st.queues && got == [] && forall s :: id !in Subscribers(st, s)
    case Some(x) =>
      && id in st.queues
      && x.taken <= |x.kept|
      && got == x.kept[..x.taken]
      && st.queues[id] == x.kept[x.taken..]
      && forall s :: id in Subscribers(st, s) <==> (x.subscribed && s == x.server)
  }

  lemma LaneFollows(st: State, got: seq<PeerUpdate>, id: SubId, lane: Option<Lane>, l: Label)
    requires OnLane(st, got, id, lane)
    ensures OnLane(Step(st, l),
                   if l == Receive(id) && id in st.queues && st.queues[id] != [] then got + [st.queues[id][0]] else got,
                   id, LaneStep(lane, l, id))
  {
    var next := Step(st, l);
    assert forall s :: id in Subscribers(next, s) <==>
      (id in Subscribers(st, s) && l != Unsubscribe(s, id)) || (l == Subscribe(s, id) && id !in st.queues);
  }

  lemma {:induction false} QueueBound(ls: seq<Label>, id: SubId)
    ensures id in Run(EMPTY, ls).queues ==> |Run(EMPTY, ls).queues[id]| <= QUEUE_SIZE
  {
    if ls == [] {
    } else {
      QueueBound(ls[..|ls| - 1], id);
    }
  }

  /** Hub queues are faithful: in every run, for every subscriber, what it received followed by what
      waits in its queue is exactly its lane, in order; it received a prefix of it. */
  lemma {:induction false} QueuesAreFaithful(ls: seq<Label>, id: SubId)
    ensures OnLane(Run(EMPTY, ls), Received(ls, id), id, LaneAfter(ls, id))
    ensures id in Run(EMPTY, ls).queues ==>
      && LaneAfter(ls, id).Some?
      && Received(ls, id) + Run(EMPTY, ls).queues[id] == LaneAfter(ls, id).value.kept
      && |Run(EMPTY, ls).queues[id]| <= QUEUE_SIZE
  {
    hide Step, LaneStep;
    QueueBound(ls, id);
    if ls == [] {
    } else {
      var init := ls[..|ls| - 1];
      QueuesAreFaithful(init, id);
      LaneFollows(Run(EMPTY, init), Received(init, id), id, LaneAfter(init, id), ls[|ls| - 1]);
    }
  }

  // The queues after the update was offered to some of the subscribers.
  function Offered(queues: map<SubId, seq<PeerUpdate>>, ids: set<SubId>, u: PeerUpdate): map<SubId, seq<PeerUpdate>> {
    map id | id in queues :: if id in ids && HasRoom(queues, id) then queues[id] + [u] else queues[id]
  }

  lemma NothingOffered(queues: map<SubId, seq<PeerUpdate>>, u: PeerUpdate)
    ensures Offered(queues, {}, u) == queues
  {
  }

  lemma OfferedNext(queues: map<SubId, seq<PeerUpdate>>, ids: set<SubId>, id: SubId, u: PeerUpdate)
    requires id in queues && id !in ids
    ensures var before := Offered(queues, ids, u);
      && before.Keys == queues.Keys && before[id] == queues[id]
      && Offered(queues, ids + {id}, u) == if HasRoom(queues, id) then before[id := queues[id] + [u]] else before
  {
  }

  lemma OfferedToAll(st: State, s: Server, u: PeerUpdate)
    ensures Offered(st.queues, Subscribers(st, s), u) == Published(st, s, u)
    ensures s !in st.subs ==> Published(st, s, u) == st.queues
  {
  }

  class Hub {
    var subs: map<Server, set<SubId>>
    var queues: map<SubId, seq<PeerUpdate>>
    var nextId: SubId

    constructor ()
      ensures Valid() && Abs() == EMPTY
    {
      subs, queues, nextId := map[], map[], 0;
    }

    ghost predicate Valid()
      reads this
    {
      WellFormed(Abs()) && forall id :: id in queues ==> id < nextId
    }

    ghost function Abs(): State
      reads this
    {
      State(subs, queues)
    }

    method Subscribe(s: Server) returns (id: SubId)
      requires Valid()
      modifies this
      ensures Valid() && id !in old(queues)
      ensures Abs() == Step(old(Abs()), Label.Subscribe(s, id))
    {
      StepWellFormed(Abs(), Label.Subscribe(s, nextId));
      id := nextId;
      nextId := nextId + 1;
      queues := queues[id := []];
      var members := if s in subs then subs[s] else {};
      subs := subs[s := members + {id}];
    }

    method Unsubscribe(s: Server, id: SubId)
      requires Valid()
      modifies this
      ensures Valid()
      ensures Abs() == Step(old(Abs()), Label.Unsubscribe(s, id))
    {
      StepWellFormed(Abs(), Label.Unsubscribe(s, id));
      if s in subs {
        subs := subs[s := subs[s] - {id}];
        if subs[s] == {} {
          subs := subs - {s};
        }
      }
    }

    // A send that does not wait to each of the subscribers; a full channel refuses the update.
    method Offer(ids: set<SubId>, u: PeerUpdate) returns (delivered: bool)
      requires ids <= queues.Keys
      modifies this`queues
      ensures queues == Offered(old(queues), ids, u)
      ensures delivered <==> exists id :: id in ids && HasRoom(old(queues), id)
    {
      hide Offered;
      delivered := false;
      var rest := ids;
      NothingOffered(queues, u);
      assert ids - rest == {};
      while rest != {}
        invariant rest <= ids
        invariant queues == Offered(old(queues), ids - rest, u)
        invariant delivered <==> exists id :: id in ids - rest && HasRoom(old(queues), id)
      {
        var id :| id in rest;
        OfferedNext(old(queues), ids - rest, id, u);
        assert ids - (rest - {id}) == ids - rest + {id};
        if |queues[id]| < QUEUE_SIZE {
          queues := queues[id := queues[id] + [u]];
          delivered := true;
        }
        rest := rest - {id};
      }
      assert ids - rest == ids;
    }

    // True exactly when at least one subscriber took the update.
    method Publish(s: Server, u: PeerUpdate) returns (delivered: bool)
      requires Valid()
      modifies this`queues
      ensures Valid()
      ensures Abs() == Step(old(Abs()), Label.Publish(s, u))
      ensures delivered <==> exists id :: Accepts(old(Abs()), s, id)
    {
      StepWellFormed(Abs(), Label.Publish(s, u));
      OfferedToAll(Abs(), s, u);
      hide Offered, Published;
      delivered := false;
      if s in subs {
        delivered := Offer(subs[s], u);
      }
    }

    method Receive(id: SubId) returns (u: Option<PeerUpdate>)
      requires Valid()
      modifies this`queues
      ensures Valid()
      ensures Abs() == Step(old(Abs()), Label.Receive(id))
      ensures u == if id in old(queues) && old(queues)[id] != [] then Some(old(queues)[id][0]) else None
    {
      u := None;
      if id in queues && queues[id] != [] {
        u := Some(queues[id][0]);
        queues := queues[id := queues[id][1..]];
      }
    }
  }
}
