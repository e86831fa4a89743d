/** The leaderboard invalidation hub: bounded queues that keep the newest signals, and a sentinel that ends every
    stream on shutdown. */
module EventHub {
  import opened Text

  datatype Change = Change(gameKey: string, periodStart: int)

  /** `None` is the shutdown sentinel. */
  type Signal = Option<Change>

  // ---------- one stream ----------

  /** Everything offered to an open subscriber, which of it has been taken, and where its queue begins. */
  datatype Stream = Stream(capacity: nat, offered: seq<Signal>, head: nat, taken: seq<nat>, closed: bool)

  function Queue(st: Stream): seq<Signal> {
    if st.head <= |st.offered| then st.offered[st.head..] else []
  }

  function NewStream(capacity: nat): Stream {
    Stream(capacity, [], 0, [], false)
  }

  function OfferTo(st: Stream, signal: Signal): Stream {
    if st.closed then st
    else st.(offered := st.offered + [signal], head := if |st.offered| - st.head == st.capacity then st.head + 1 else st.head)
  }

  function Take(st: Stream): Stream
    requires Queue(st) != []
  {
    st.(taken := st.taken + [st.head], head := st.head + 1)
  }

  function Close(st: Stream): Stream {
    st.(closed := true)
  }

  /** Signal `k` was pushed out by as many newer ones as the queue holds. */
  predicate Overtaken(st: Stream, k: nat) {
    k + st.capacity < |st.offered|
  }

  predicate StreamInv(st: Stream) {
    && st.capacity >= 1 && st.head <= |st.offered| && |st.offered| - st.head <= st.capacity
    && (forall i, j | 0 <= i < j < |st.taken| :: st.taken[i] < st.taken[j])
    && (forall i | 0 <= i < |st.taken| :: st.taken[i] < st.head)
    && (forall k: nat | k < st.head && k !in st.taken :: Overtaken(st, k))
  }

  /** What the subscriber has received, in order. */
  function Received(st: Stream): seq<Signal>
    requires StreamInv(st)
  {
    seq(|st.taken|, i requires 0 <= i < |st.taken| => st.offered[st.taken[i]])
  }

  lemma OfferIsSafe(st: Stream, signal: Signal)
    requires StreamInv(st)
    ensures StreamInv(OfferTo(st, signal)) && Received(OfferTo(st, signal)) == Received(st)
    ensures !st.closed ==> Queue(OfferTo(st, signal)) != [] && Queue(OfferTo(st, signal))[|Queue(OfferTo(st, signal))| - 1] == signal
  {
  }

  /** The queue takes the signal at its end and, if it was full, gives up its front. */
  lemma OfferedQueue(st: Stream, signal: Signal)
    requires StreamInv(st)
    ensures OfferTo(st, signal).closed == st.closed && OfferTo(st, signal).capacity == st.capacity
    ensures st.closed ==> OfferTo(st, signal) == st
    ensures |Queue(st)| == st.capacity ==> Queue(st) != []
    ensures !st.closed ==>
      Queue(OfferTo(st, signal)) == (if |Queue(st)| == st.capacity then Queue(st)[1..] else Queue(st)) + [signal]
  {
  }

  lemma TakeIsSafe(st: Stream)
    requires StreamInv(st) && Queue(st) != []
    ensures StreamInv(Take(st)) && Received(Take(st)) == Received(st) + [Queue(st)[0]]
    ensures Queue(Take(st)) == Queue(st)[1..]
  {
    var st' := Take(st);
    assert st'.taken[|st.taken|] == st.head;
    forall k: nat | k < st'.head && k !in st'.taken ensures Overtaken(st', k) {
      assert forall i | 0 <= i < |st.taken| :: st'.taken[i] == st.taken[i];
      assert Overtaken(st, k);
    }
  }

  // ---------- classes ----------

  class LeaderboardSubscription {
    const hub: LeaderboardEventHub
    const gameKey: string
    const periodStart: int
    const capacity: nat
    var queue: seq<Signal>
    var closed: bool
    ghost var stream: Stream

    ghost predicate Valid()
      reads this
    {
      StreamInv(stream) && stream.capacity == capacity && stream.closed == closed && queue == Queue(stream)
    }

    constructor (hub: LeaderboardEventHub, gameKey: string, periodStart: int, capacity: nat)
      requires capacity >= 1
      ensures Valid() && stream == NewStream(capacity)
      ensures this.hub == hub && this.gameKey == gameKey && this.periodStart == periodStart
    {
      this.hub, this.gameKey, this.periodStart, this.capacity := hub, gameKey, periodStart, capacity;
      queue, closed := [], false;
      stream := NewStream(capacity);
    }

    predicate Wants(event: Change) {
      gameKey == event.gameKey && periodStart == event.periodStart
    }

    /** The next signal; `None` means that the subscriber would have to wait. */
    method Receive() returns (next: Option<Signal>)
      requires Valid()
      modifies this
      ensures Valid() && (next.None? <==> old(queue) == [])
      ensures stream == if old(queue) == [] then old(stream) else Take(old(stream))
      ensures next.Some? ==> Received(stream) == Received(old(stream)) + [next.value]
    {
      if queue == [] { return None; }
      TakeIsSafe(stream);
      next := Some(queue[0]);
      queue := queue[1..];
      stream := Take(stream);
    }

    /** Keeps the newest signal when the queue is full. */
    method Offer(signal: Signal)
      requires Valid()
      modifies this
      ensures Valid() && stream == OfferTo(old(stream), signal) && closed == old(closed)
      ensures !closed ==> queue != [] && queue[|queue| - 1] == signal
    {
      hide StreamInv, Queue, OfferTo;
      OfferIsSafe(stream, signal);
      OfferedQueue(stream, signal);
      if closed { return; }
      if |queue| == capacity { queue := queue[1..]; }
      queue := queue + [signal];
      stream := OfferTo(stream, signal);
    }

    method CloseDown()
      requires Valid() && hub.Valid()
      modifies this, hub
      ensures Valid() && hub.Valid() && stream == Close(old(stream)) && this !in hub.subscriptions
      ensures old(closed) ==> hub.subscriptions == old(hub.subscriptions)
      ensures !old(closed) ==> hub.subscriptions == old(hub.subscriptions) - {this}
      ensures hub.down == old(hub.down)
    {
      if !closed {
        closed := true;
        stream := Close(stream);
        hub.Unsubscribe(this);
      }
    }
  }

  class LeaderboardEventHub {
    const queueSize: nat
    var subscriptions: set<LeaderboardSubscription>
    var down: bool

    /** Registered subscribers are open, and none is left after a shutdown. */
    ghost predicate Valid()
      reads this, subscriptions
    {
      && queueSize >= 1 && (down ==> subscriptions == {})
      && forall s | s in subscriptions :: s.Valid() && !s.closed && s.hub == this
    }

    constructor (queueSize: nat)
      requires queueSize >= 1
      ensures Valid() && subscriptions == {} && !down && this.queueSize == queueSize
    {
      this.queueSize := queueSize;
      subscriptions, down := {}, false;
    }

    method Subscribe(gameKey: string, periodStart: int) returns (subscription: LeaderboardSubscription)
      requires Valid()
      modifies this
      ensures Valid() && fresh(subscription) && subscription.Valid() && subscription.hub == this && down == old(down)
      ensures subscription.gameKey == gameKey && subscription.periodStart == periodStart
      ensures subscriptions == if down then old(subscriptions) else old(subscriptions) + {subscription}
      ensures subscription.stream == if down then OfferTo(NewStream(queueSize), None) else NewStream(queueSize)
    {
      subscription := new LeaderboardSubscription(this, gameKey, periodStart, queueSize);
      if down {
        subscription.Offer(None);
      } else {
        subscriptions := subscriptions + {subscription};
      }
    }

    method Unsubscribe(subscription: LeaderboardSubscription)
      requires forall s | s in subscriptions && s != subscription :: s.Valid() && !s.closed && s.hub == this
      requires queueSize >= 1 && (down ==> subscriptions == {})
      modifies `subscriptions
      ensures Valid() && subscriptions == old(subscriptions) - {subscription}
    {
      subscriptions := subscriptions - {subscription};
    }

    /** Every registered subscriber of the event's board is offered it, and no other stream changes. */
    method Publish(event: Change)
      requires Valid()
      modifies subscriptions
      ensures Valid() && subscriptions == old(subscriptions) && down == old(down)
      ensures forall s | s in subscriptions ::
        s.stream == if s.gameKey == event.gameKey && s.periodStart == event.periodStart
                    then OfferTo(old(s.stream), Some(event)) else old(s.stream)
    {
      hide StreamInv, Queue, OfferTo;
      var left := subscriptions;
      while left != {}
        invariant left <= subscriptions && subscriptions == old(subscriptions)
        invariant forall s | s in subscriptions :: s.Valid() && !s.closed
        invariant forall s | s in left :: s.stream == old(s.stream)
        invariant forall s | s in subscriptions - left ::
            s.stream == if s.Wants(event) then OfferTo(old(s.stream), Some(event)) else old(s.stream)
        decreases |left|
      {
        var s :| s in left;
        if s.Wants(event) { s.Offer(Some(event)); }
        left := left - {s};
      }
    }

    /** The sentinel is the last thing ever offered. A second shutdown does nothing. */
    method Shutdown()
      requires Valid()
      modifies this, subscriptions
      ensures Valid() && down && subscriptions == {}
      ensures forall s | s in old(subscriptions) :: s.Valid() && s.stream == OfferTo(old(s.stream), None)
    {
      hide StreamInv, Queue, OfferTo;
      if down { return; }
      down := true;
      var left := subscriptions;
      subscriptions := {};
      while left != {}
        invariant left <= old(subscriptions) && subscriptions == {} && down
        invariant forall s | s in old(subscriptions) :: s.Valid()
        invariant forall s | s in left :: s.stream == old(s.stream)
        invariant forall s | s in old(subscriptions) - left :: s.stream == OfferTo(old(s.stream), None)
        decreases |left|
      {
        var s :| s in left;
        s.Offer(None);
        left := left - {s};
      }
    }
  }

  // ---------- runs of the whole hub ----------

  datatype Subscriber = Subscriber(gameKey: string, periodStart: int, stream: Stream, since: nat)

  /** `published` is every event published before the shutdown, `since` where a subscriber joined. */
  datatype Hub = Hub(size: nat, subscribers: map<nat, Subscriber>, registered: set<nat>, down: bool,
                     published: seq<Change>)

  datatype Action =
    | Joins(id: nat, gameKey: string, periodStart: int)
    | Leaves(id: nat)
    | Receives(id: nat)
    | Publishes(event: Change)
    | ShutsDown

  predicate Enabled(h: Hub, a: Action) {
    match a
    case Joins(id, _, _) => id !in h.subscribers
    case Leaves(id) => id in h.subscribers
    case Receives(id) => id in h.subscribers && Queue(h.subscribers[id].stream) != []
    case _ => true
  }

  function Wanted(s: Subscriber, event: Change): bool {
    s.gameKey == event.gameKey && s.periodStart == event.periodStart
  }

  function Offered(h: Hub, id: nat, event: Change): Subscriber
    requires id in h.subscribers
  {
    var s := h.subscribers[id];
    if id in h.registered && Wanted(s, event) then s.(stream := OfferTo(s.stream, Some(event))) else s
  }

  function Ended(h: Hub, id: nat): Subscriber
    requires id in h.subscribers
  {
    var s := h.subscribers[id];
    if id in h.registered then s.(stream := OfferTo(s.stream, None)) else s
  }

  function Act(h: Hub, a: Action): Hub
    requires Enabled(h, a)
  {
    match a
    case Joins(id, gameKey, periodStart) =>
      var stream := if h.down then OfferTo(NewStream(h.size), None) else NewStream(h.size);
      h.(subscribers := h.subscribers[id := Subscriber(gameKey, periodStart, stream, |h.published|)],
         registered := if h.down then h.registered else h.registered + {id})
    case Leaves(id) =>
      h.(subscribers := h.subscribers[id := h.subscribers[id].(stream := Close(h.subscribers[id].stream))],
         registered := h.registered - {id})
    case Receives(id) =>
      h.(subscribers := h.subscribers[id := h.subscribers[id].(stream := Take(h.subscribers[id].stream))])
    case Publishes(event) =>
      h.(subscribers := map id | id in h.subscribers :: Offered(h, id, event),
         published := if h.down then h.published else h.published + [event])
    case ShutsDown =>
      if h.down then h
      else h.(subscribers := map id | id in h.subscribers :: Ended(h, id), registered := {}, down := true)
  }

  /** The events a subscriber asked for, among those published from place `since` on. */
  function Matching(s: Subscriber, events: seq<Change>): seq<Signal> {
    if events == [] then []
    else
      var n := |events| - 1;
      Matching(s, events[..n])
      + (if s.gameKey == events[n].gameKey && s.periodStart == events[n].periodStart then [Some(events[n])] else [])
  }

  /** An open subscriber has been offered exactly the matching events since it joined, and after a shutdown the
      sentinel behind them. */
  predicate StreamOf(h: Hub, id: nat)
    requires id in h.subscribers
  {
    var s := h.subscribers[id];
    && StreamInv(s.stream) && s.since <= |h.published|
    && (id in h.registered ==> !h.down && !s.stream.closed && s.stream.offered == Matching(s, h.published[s.since..]))
    && (id !in h.registered && !s.stream.closed ==> h.down && s.stream.offered == Matching(s, h.published[s.since..]) + [None])
  }

  predicate HubInv(h: Hub) {
    && h.size >= 1 && (h.down ==> h.registered == {}) && h.registered <= h.subscribers.Keys
    && forall id | id in h.subscribers :: StreamOf(h, id)
  }

  lemma MatchingDependsOnFilter(s: Subscriber, t: Subscriber, events: seq<Change>)
    requires s.gameKey == t.gameKey && s.periodStart == t.periodStart
    ensures Matching(s, events) == Matching(t, events)
  {
  }

  lemma ActIsSafe(h: Hub, a: Action)
    requires HubInv(h) && Enabled(h, a)
    ensures HubInv(Act(h, a))
  {
    hide StreamInv, OfferTo, Take, Matching, Queue;
    var h' := Act(h, a);
    forall id | id in h'.subscribers ensures StreamOf(h', id) {
      if id in h.subscribers {
        assert StreamOf(h, id);
        SubscriberIsSafe(h, a, id);
      } else {
        JoiningIsSafe(h, a);
      }
    }
  }

  lemma JoiningIsSafe(h: Hub, a: Action)
    requires HubInv(h) && Enabled(h, a) && a.Joins?
    ensures StreamOf(Act(h, a), a.id)
  {
    OfferIsSafe(NewStream(h.size), None);
  }

  lemma SubscriberIsSafe(h: Hub, a: Action, id: nat)
    requires HubInv(h) && Enabled(h, a) && id in h.subscribers && StreamOf(h, id)
    ensures StreamOf(Act(h, a), id)
  {
    hide StreamInv, Matching, Queue, OfferTo, Take, HubInv;
    var s := h.subscribers[id];
    match a
    case Publishes(event) => PublishedTo(h, event, id);
    case ShutsDown => OfferIsSafe(s.stream, None); OfferedTo(s.stream, None); SameFilter(h, s, Act(h, a).subscribers[id]);
    case Receives(other) =>
      if other == id { TakeIsSafe(s.stream); TakenFrom(s.stream); }
      SameFilter(h, s, Act(h, a).subscribers[id]);
    case Leaves(other) =>
      if other == id { ClosingIsSafe(s.stream); }
    case Joins(_, _, _) =>
  }

  lemma OfferedTo(st: Stream, signal: Signal)
    ensures OfferTo(st, signal).closed == st.closed
    ensures !st.closed ==> OfferTo(st, signal).offered == st.offered + [signal]
  {
  }

  lemma TakenFrom(st: Stream)
    requires Queue(st) != []
    ensures Take(st).closed == st.closed && Take(st).offered == st.offered
  {
  }

  lemma SameFilter(h: Hub, s: Subscriber, s': Subscriber)
    requires s' == s.(stream := s'.stream) && s.since <= |h.published|
    ensures Matching(s', h.published[s.since..]) == Matching(s, h.published[s.since..])
  {
    MatchingDependsOnFilter(s, s', h.published[s.since..]);
  }

  lemma PublishedTo(h: Hub, event: Change, id: nat)
    requires id in h.subscribers && StreamOf(h, id)
    ensures StreamOf(Act(h, Publishes(event)), id)
  {
    hide StreamInv, Matching, Queue, OfferTo;
    var h' := Act(h, Publishes(event));
    var s, s' := h.subscribers[id], h'.subscribers[id];
    OfferIsSafe(s.stream, Some(event));
    OfferedTo(s.stream, Some(event));
    MatchingDependsOnFilter(s, s', h'.published[s.since..]);
    if !h.down {
      MatchingGrows(s, h.published[s.since..], event);
      assert h'.published[s.since..] == h.published[s.since..] + [event];
    }
  }

  lemma ClosingIsSafe(st: Stream)
    requires StreamInv(st)
    ensures StreamInv(Close(st))
  {
    assert forall k: nat | k < st.head && k !in st.taken :: Overtaken(st, k) && Overtaken(Close(st), k);
  }

  lemma MatchingGrows(s: Subscriber, events: seq<Change>, event: Change)
    ensures Matching(s, events + [event]) == Matching(s, events) + (if Wanted(s, event) then [Some(event)] else [])
  {
    assert (events + [event])[..|events|] == events;
  }

  predicate CanRun(h: Hub, actions: seq<Action>)
    decreases |actions|
  {
    actions == [] || (Enabled(h, actions[0]) && CanRun(Act(h, actions[0]), actions[1..]))
  }

  function Run(h: Hub, actions: seq<Action>): Hub
    requires CanRun(h, actions)
    decreases |actions|
  {
    if actions == [] then h else Run(Act(h, actions[0]), actions[1..])
  }

  lemma {:induction false} RunIsSafe(h: Hub, actions: seq<Action>)
    requires HubInv(h) && CanRun(h, actions)
    ensures HubInv(Run(h, actions))
    decreases |actions|
  {
    hide HubInv, Enabled, Act;
    if actions != [] {
      ActIsSafe(h, actions[0]);
      RunIsSafe(Act(h, actions[0]), actions[1..]);
    }
  }

  /** The events published before the shutdown. */
  function PublishedIn(actions: seq<Action>): seq<Change> {
    if actions == [] then []
    else
      match actions[0]
      case ShutsDown => []
      case Publishes(event) => [event] + PublishedIn(actions[1..])
      case _ => PublishedIn(actions[1..])
  }

  predicate JoinsIn(actions: seq<Action>, id: nat) {
    exists k :: 0 <= k < |actions| && actions[k].Joins? && actions[k].id == id
  }

  lemma FirstJoins(actions: seq<Action>, id: nat)
    requires actions != []
    ensures JoinsIn(actions, id) <==> (actions[0].Joins? && actions[0].id == id) || JoinsIn(actions[1..], id)
  {
    if JoinsIn(actions[1..], id) {
      var k :| 0 <= k < |actions| - 1 && actions[1..][k].Joins? && actions[1..][k].id == id;
      assert actions[k + 1].Joins? && actions[k + 1].id == id;
    }
    if JoinsIn(actions, id) {
      var k :| 0 <= k < |actions| && actions[k].Joins? && actions[k].id == id;
      assert k > 0 ==> actions[1..][k - 1].Joins? && actions[1..][k - 1].id == id;
    }
  }

  lemma ActDoes(h: Hub, a: Action, id: nat)
    requires Enabled(h, a)
    ensures var h' := Act(h, a);
      && (h'.down <==> h.down || a.ShutsDown?)
      && h'.published == (if a.Publishes? && !h.down then h.published + [a.event] else h.published)
      && (id in h'.subscribers <==> id in h.subscribers || (a.Joins? && a.id == id))
      && (a == Leaves(id) ==> id in h.subscribers)
      && (id in h'.subscribers ==>
            (h'.subscribers[id].stream.closed <==> a == Leaves(id) || (id in h.subscribers && h.subscribers[id].stream.closed)))
  {
    hide Queue;
  }

  lemma {:induction false} WhatHappened(h: Hub, actions: seq<Action>, id: nat)
    requires CanRun(h, actions)
    ensures var h' := Run(h, actions);
      && (h'.down <==> h.down || ShutsDown in actions)
      && h'.published == (if h.down then h.published else h.published + PublishedIn(actions))
      && (id in h'.subscribers <==> id in h.subscribers || JoinsIn(actions, id))
      && (id in h'.subscribers ==>
            (h'.subscribers[id].stream.closed <==> Leaves(id) in actions || (id in h.subscribers && h.subscribers[id].stream.closed)))
    decreases |actions|
  {
    hide Act, Enabled;
    if actions == [] {
      assert PublishedIn(actions) == [] && !JoinsIn(actions, id) && Run(h, actions) == h;
    } else {
      hide JoinsIn;
      FirstJoins(actions, id);
      ActDoes(h, actions[0], id);
      var h1 := Act(h, actions[0]);
      WhatHappened(h1, actions[1..], id);
      assert actions[0].Publishes? && !h.down ==>
        h1.published + PublishedIn(actions[1..]) == h.published + ([actions[0].event] + PublishedIn(actions[1..]));
      assert forall a :: a in actions <==> a == actions[0] || a in actions[1..];
    }
  }

  /** In every run, the subscribers are those that joined, and the open ones those of them that have not left; the hub is
      down exactly after a shutdown and has published what came before it. */
  lemma HubFollowsItsRun(size: nat, actions: seq<Action>, id: nat)
    requires CanRun(Hub(size, map[], {}, false, []), actions)
    ensures var h := Run(Hub(size, map[], {}, false, []), actions);
      && (h.down <==> ShutsDown in actions) && h.published == PublishedIn(actions)
      && (id in h.subscribers <==> JoinsIn(actions, id))
      && (id in h.subscribers ==> (h.subscribers[id].stream.closed <==> Leaves(id) in actions))
  {
    WhatHappened(Hub(size, map[], {}, false, []), actions, id);
  }

  /** In every run, for every open subscriber: it has received a subsequence, in order, of the matching events
      published since it joined (and the sentinel); its queue is exactly the newest part of them; whatever it
      missed was pushed out by as many newer events as its queue holds; and after a shutdown the last thing in its
      queue is the sentinel. */
  lemma EveryOpenStream(size: nat, actions: seq<Action>, id: nat)
    requires size >= 1 && CanRun(Hub(size, map[], {}, false, []), actions)
    ensures var h := Run(Hub(size, map[], {}, false, []), actions);
      id in h.subscribers && !h.subscribers[id].stream.closed ==>
        var s := h.subscribers[id];
        && s.since <= |h.published|
        && s.stream.offered == Matching(s, h.published[s.since..]) + (if h.down then [None] else [])
        && StreamInv(s.stream)
        && |Queue(s.stream)| <= size && Queue(s.stream) == s.stream.offered[|s.stream.offered| - |Queue(s.stream)|..]
        && (h.down && Queue(s.stream) != [] ==> Queue(s.stream)[|Queue(s.stream)| - 1] == None)
  {
    var h := Run(Hub(size, map[], {}, false, []), actions);
    RunIsSafe(Hub(size, map[], {}, false, []), actions);
    SizeStays(Hub(size, map[], {}, false, []), actions);
    if id in h.subscribers && !h.subscribers[id].stream.closed {
      assert StreamOf(h, id);
    }
  }

  /** Queue sizes are those the hub was made with. */
  ghost predicate Sized(h: Hub) {
    forall id | id in h.subscribers :: h.subscribers[id].stream.capacity == h.size
  }

  lemma {:induction false} SizeStays(h: Hub, actions: seq<Action>)
    requires Sized(h) && CanRun(h, actions)
    ensures Sized(Run(h, actions)) && Run(h, actions).size == h.size
    decreases |actions|
  {
    if actions != [] {
      assert Sized(Act(h, actions[0]));
      SizeStays(Act(h, actions[0]), actions[1..]);
    }
  }
}
