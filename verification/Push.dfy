/** The three-attempt push of one update, with any activity on the hub between its attempts. */
module Push {
  import opened PeerHub

  const MAX_RETRIES := 3

  // Who took the update at each attempt made, and how the push ended.
  datatype Outcome = Outcome(hub: State, ok: bool, takers: seq<set<SubId>>)

  function Takers(st: State, s: Server): set<SubId> {
    set id | id in Subscribers(st, s) && Accepts(st, s, id)
  }

  /** The attempts from the given one on. Between attempt i and the next the rest of the system performs
      activity[i]; the context is cancelled during the wait after attempt cancelAt, if that is reached. */
  function PushFrom(st: State, s: Server, u: PeerUpdate, activity: seq<seq<Label>>, cancelAt: nat, attempt: nat): Outcome
    requires |activity| == MAX_RETRIES - 1 && attempt < MAX_RETRIES
    decreases MAX_RETRIES - attempt
  {
    var now := Takers(st, s);
    var published := Step(st, Label.Publish(s, u));
    if now != {} then Outcome(published, true, [now])
    else if attempt == MAX_RETRIES - 1 then Outcome(published, false, [now])
    else if attempt == cancelAt then Outcome(Run(published, activity[attempt]), false, [now])
    else
      var rest := PushFrom(Run(published, activity[attempt]), s, u, activity, cancelAt, attempt + 1);
      rest.(takers := [now] + rest.takers)
  }

  /** A push is at-most-once per subscriber, whatever subscribes, unsubscribes, receives or is published
      between its attempts; and it succeeds exactly when at least one subscriber took the update. */
  lemma {:induction false} PushAtMostOnce(st: State, s: Server, u: PeerUpdate, activity: seq<seq<Label>>,
                                          cancelAt: nat, attempt: nat)
    requires |activity| == MAX_RETRIES - 1 && attempt < MAX_RETRIES
    ensures var o := PushFrom(st, s, u, activity, cancelAt, attempt);
      && 1 <= |o.takers| <= MAX_RETRIES - attempt
      && (forall i, j, id :: 0 <= i < |o.takers| && 0 <= j < |o.takers| && id in o.takers[i] && id in o.takers[j] ==> i == j)
      && (o.ok <==> exists i, id :: 0 <= i < |o.takers| && id in o.takers[i])
      && (o.ok ==> forall i :: 0 <= i < |o.takers| - 1 ==> o.takers[i] == {})
    decreases MAX_RETRIES - attempt
  {
    var o := PushFrom(st, s, u, activity, cancelAt, attempt);
    var now := Takers(st, s);
    if now != {} {
      var id :| id in now;
      assert id in o.takers[0];
    } else if attempt < MAX_RETRIES - 1 && attempt != cancelAt {
      var next := Run(Step(st, Label.Publish(s, u)), activity[attempt]);
      var rest := PushFrom(next, s, u, activity, cancelAt, attempt + 1);
      PushAtMostOnce(next, s, u, activity, cancelAt, attempt + 1);
      assert o.takers == [now] + rest.takers;
      if rest.ok {
        var i, id :| 0 <= i < |rest.takers| && id in rest.takers[i];
        assert id in o.takers[i + 1];
      }
    }
  }

  // The takers of an attempt are the subscribers whose queue grew, by exactly this update.
  lemma TakersGetTheUpdate(st: State, s: Server, u: PeerUpdate, id: SubId)
    requires id in st.queues
    ensures Step(st, Label.Publish(s, u)).queues[id] ==
      if id in Takers(st, s) then st.queues[id] + [u] else st.queues[id]
  {
  }

  // A subscriber of the server with fewer than 32 updates waiting.
  predicate Hears(st: State, s: Server, id: SubId) {
    s in st.subs && id in st.subs[s] && id in st.queues && |st.queues[id]| < 32
  }

  predicate Heard(st: State, s: Server) {
    exists id :: id in Subscribers(st, s) && Hears(st, s, id)
  }

  lemma TakersHear(st: State, s: Server, u: PeerUpdate)
    ensures forall id :: id in Takers(st, s) <==> Hears(st, s, id)
    ensures Heard(st, s) <==> Takers(st, s) != {}
    ensures !Heard(st, s) ==> Step(st, Label.Publish(s, u)) == st
  {
    if Takers(st, s) != {} {
      var id :| id in Takers(st, s);
      assert Hears(st, s, id);
    } else {
      forall id
        ensures !Accepts(st, s, id) && !Hears(st, s, id)
      {
        assert id !in Takers(st, s);
      }
      assert Published(st, s, u) == st.queues;
    }
  }

  // The hub at the j-th attempt, if nobody heard the earlier ones.
  function HubAt(st: State, activity: seq<seq<Label>>, attempt: nat, j: nat): State
    requires |activity| == MAX_RETRIES - 1 && attempt <= j < MAX_RETRIES
    decreases j - attempt
  {
    if j == attempt then st else HubAt(Run(st, activity[attempt]), activity, attempt + 1, j)
  }

  // The last attempt there will be: the third, or the one whose wait is cancelled.
  function LastAttempt(attempt: nat, cancelAt: nat): nat {
    if attempt <= cancelAt < 2 then cancelAt else 2
  }

  predicate HeardAt(st: State, s: Server, activity: seq<seq<Label>>, attempt: nat, j: nat)
    requires |activity| == MAX_RETRIES - 1 && attempt <= j < MAX_RETRIES
  {
    Heard(HubAt(st, activity, attempt, j), s)
  }

  // Nobody hears an attempt before the j-th.
  ghost predicate Unheard(st: State, s: Server, activity: seq<seq<Label>>, attempt: nat, j: nat)
    requires |activity| == MAX_RETRIES - 1 && attempt <= j <= MAX_RETRIES
  {
    forall i: nat :: attempt <= i < j ==> !HeardAt(st, s, activity, attempt, i)
  }

  /** A push is the publication at the first of its attempts that anyone hears, on the hub as the others left it; it is
      heard by every subscriber with room, and by nobody later. If nobody hears any, it fails and leaves no trace. */
  lemma {:induction false} PushIsFirstHeard(st: State, s: Server, u: PeerUpdate, activity: seq<seq<Label>>, cancelAt: nat,
                                            attempt: nat, j: nat)
    requires |activity| == MAX_RETRIES - 1 && attempt <= j <= LastAttempt(attempt, cancelAt)
    requires Unheard(st, s, activity, attempt, j)
    ensures var o := PushFrom(st, s, u, activity, cancelAt, attempt); var hub := HubAt(st, activity, attempt, j);
      && (Heard(hub, s) ==>
            && o.ok && |o.takers| == j - attempt + 1 && o.hub == Step(hub, Label.Publish(s, u))
            && forall id :: id in o.takers[j - attempt] <==> Hears(hub, s, id))
      && (!Heard(hub, s) && j == LastAttempt(attempt, cancelAt) ==>
            && !o.ok && |o.takers| == j - attempt + 1
            && o.hub == if j < 2 then Run(hub, activity[j]) else hub)
    decreases j - attempt
  {
    hide Run, Step, Heard, Hears, Takers;
    TakersHear(st, s, u);
    if j == attempt {
    } else {
      var next, second := Run(st, activity[attempt]), attempt + 1;
      forall i: nat | second <= i < j
        ensures !HeardAt(next, s, activity, second, i)
      {
        assert !HeardAt(st, s, activity, attempt, i);
      }
      assert !HeardAt(st, s, activity, attempt, attempt);
      PushIsFirstHeard(next, s, u, activity, cancelAt, second, j);
    }
  }

  // What the rest of the system does to the hub while a push waits.
  datatype Act = Join(s: Server) | Leave(s: Server, id: SubId) | Post(s: Server, u: PeerUpdate) | Take(id: SubId)

  method Perform(hub: Hub, acts: seq<Act>) returns (ghost trace: seq<Label>)
    requires hub.Valid()
    modifies hub
    ensures hub.Valid() && hub.Abs() == Run(old(hub.Abs()), trace)
  {
    trace := [];
    for i := 0 to |acts|
      invariant hub.Valid() && hub.Abs() == Run(old(hub.Abs()), trace)
    {
      ghost var l;
      match acts[i] {
        case Join(s) =>
          var id := hub.Subscribe(s);
          l := Label.Subscribe(s, id);
        case Leave(s, id) =>
          hub.Unsubscribe(s, id);
          l := Label.Unsubscribe(s, id);
        case Post(s, u) =>
          var _ := hub.Publish(s, u);
          l := Label.Publish(s, u);
        case Take(id) =>
          var _ := hub.Receive(id);
          l := Label.Receive(id);
      }
      assert (trace + [l])[..|trace|] == trace;
      trace := trace + [l];
    }
  }

  predicate SameEnd(a: Outcome, b: Outcome) {
    a.hub == b.hub && a.ok == b.ok
  }

  // Whatever the waits from the i-th on bring, the push that started at `start` goes on like one that is
  // at its i-th attempt now.
  ghost predicate Resumes(start: State, now: State, s: Server, u: PeerUpdate, done: seq<seq<Label>>, cancelAt: nat)
    requires |done| < MAX_RETRIES
  {
    forall later: seq<seq<Label>> :: |done + later| == MAX_RETRIES - 1 ==>
      SameEnd(PushFrom(start, s, u, done + later, cancelAt, 0), PushFrom(now, s, u, done + later, cancelAt, |done|))
  }

  // An attempt without takers goes on with the next one, after its wait.
  lemma OneFailedAttempt(now: State, s: Server, u: PeerUpdate, all: seq<seq<Label>>, cancelAt: nat, n: nat)
    requires |all| == MAX_RETRIES - 1 && n < MAX_RETRIES - 1 && n != cancelAt && Takers(now, s) == {}
    ensures SameEnd(PushFrom(now, s, u, all, cancelAt, n),
                    PushFrom(Run(Step(now, Label.Publish(s, u)), all[n]), s, u, all, cancelAt, n + 1))
  {
    hide Run, Step, Takers;
  }

  lemma ResumesAfterWait(start: State, now: State, s: Server, u: PeerUpdate, done: seq<seq<Label>>, cancelAt: nat,
                         wait: seq<Label>)
    requires |done| < MAX_RETRIES - 1 && Resumes(start, now, s, u, done, cancelAt)
    requires Takers(now, s) == {} && |done| != cancelAt
    ensures Resumes(start, Run(Step(now, Label.Publish(s, u)), wait), s, u, done + [wait], cancelAt)
  {
    hide Run, Step, Takers, PushFrom;
    var next := Run(Step(now, Label.Publish(s, u)), wait);
    forall later: seq<seq<Label>> | |done + [wait] + later| == MAX_RETRIES - 1
      ensures SameEnd(PushFrom(start, s, u, done + [wait] + later, cancelAt, 0),
                      PushFrom(next, s, u, done + [wait] + later, cancelAt, |done| + 1))
    {
      var all := done + [wait] + later;
      assert all == done + ([wait] + later);
      assert SameEnd(PushFrom(start, s, u, all, cancelAt, 0), PushFrom(now, s, u, all, cancelAt, |done|));
      assert all[|done|] == wait;
      OneFailedAttempt(now, s, u, all, cancelAt, |done|);
    }
  }

  lemma ResumesEnd(start: State, now: State, s: Server, u: PeerUpdate, done: seq<seq<Label>>, cancelAt: nat,
                   all: seq<seq<Label>>)
    requires |done| < MAX_RETRIES && |all| == MAX_RETRIES - 1 && done <= all && Resumes(start, now, s, u, done, cancelAt)
    ensures SameEnd(PushFrom(start, s, u, all, cancelAt, 0), PushFrom(now, s, u, all, cancelAt, |done|))
  {
    assert all == done + all[|done|..];
  }

  lemma TakersExist(st: State, s: Server)
    ensures (exists id :: Accepts(st, s, id)) <==> Takers(st, s) != {}
  {
    if id :| Accepts(st, s, id) {
      assert id in Takers(st, s);
    }
    if id :| id in Takers(st, s) {
      assert Accepts(st, s, id);
    }
  }

  lemma ResumesStart(start: State, s: Server, u: PeerUpdate, cancelAt: nat)
    ensures Resumes(start, start, s, u, [], cancelAt)
  {
  }

  // pushWithBackoff over the hub's client; acts[i] is what the system does during the i-th wait.
  method PushWithBackoff(hub: Hub, s: Server, u: PeerUpdate, acts: seq<seq<Act>>, cancelAt: nat)
    returns (ok: bool, ghost waits: seq<seq<Label>>)
    requires hub.Valid() && |acts| == MAX_RETRIES - 1
    modifies hub
    ensures hub.Valid() && |waits| == MAX_RETRIES - 1
    ensures var o := PushFrom(old(hub.Abs()), s, u, waits, cancelAt, 0); hub.Abs() == o.hub && ok == o.ok
  {
    hide Run, Step, Resumes;
    ghost var start := hub.Abs();
    ghost var done: seq<seq<Label>> := [];
    ResumesStart(start, s, u, cancelAt);
    var i := 0;
    while true
      invariant 0 <= i < MAX_RETRIES && |done| == i
      invariant hub.Valid()
      invariant Resumes(start, hub.Abs(), s, u, done, cancelAt)
      decreases MAX_RETRIES - i
    {
      ghost var now := hub.Abs();
      ok := hub.Publish(s, u);
      TakersExist(now, s);
      waits := done + seq(MAX_RETRIES - 1 - i, _ => []);
      if ok || i == MAX_RETRIES - 1 {
        ResumesEnd(start, now, s, u, done, cancelAt, waits);
        return;
      }
      ghost var wait := Perform(hub, acts[i]);
      if i == cancelAt {
        waits := done + [wait] + seq(MAX_RETRIES - 2 - i, _ => []);
        ResumesEnd(start, now, s, u, done, cancelAt, waits);
        return;
      }
      ResumesAfterWait(start, now, s, u, done, cancelAt, wait);
      done := done + [wait];
      i := i + 1;
    }
  }

  /** A push that found nobody reaches an agent that subscribes before its second or third attempt. */
  lemma LateSubscriberIsReached(st: State, s: Server, u: PeerUpdate, id: SubId, late: bool)
    requires Subscribers(st, s) == {} && id !in st.queues
    ensures var waits := if late then [[], [Subscribe(s, id)]] else [[Subscribe(s, id)], []];
      var o := PushFrom(st, s, u, waits, MAX_RETRIES, 0);
      o.ok && id in o.hub.queues && o.hub.queues[id] == [u]
  {
    var joined := Step(st, Subscribe(s, id));
    assert Takers(st, s) == {} && Step(st, Publish(s, u)) == st;
    assert Run(st, []) == st && [Subscribe(s, id)][..0] == [];
    assert Run(st, [Subscribe(s, id)]) == joined;
    assert Takers(joined, s) == {id};
  }
}
