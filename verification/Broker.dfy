/** Fan-out of events over bounded queues; a saturated subscriber is cut off. */
module Brokers {
  import opened Types

  const SUBSCRIBER_BUFFER := 256

  // --- The broker as a value, over any kind of channel identity ---

  /** What is queued on a channel, and whether it was closed; queued events stay readable after closing. */
  datatype Chan = Chan(queue: seq<Event>, closed: bool)

  datatype Hub<C(==)> = Hub(subs: set<C>, chans: map<C, Chan>, closed: bool)

  predicate HasRoom(ch: Chan) { |ch.queue| < SUBSCRIBER_BUFFER }

  function Send(ch: Chan, ev: Event): Chan { ch.(queue := ch.queue + [ev]) }

  function Shut(ch: Chan): Chan { ch.(closed := true) }

  /** Every channel handed out is open exactly while it is subscribed. */
  ghost predicate WellFormed<C>(h: Hub<C>) {
    && h.subs <= h.chans.Keys
    && (forall c :: c in h.chans ==> (c in h.subs <==> !h.chans[c].closed))
    && (forall c :: c in h.chans ==> |h.chans[c].queue| <= SUBSCRIBER_BUFFER)
    && (h.closed ==> h.subs == {})
  }

  function HubSubscribe<C>(h: Hub<C>, c: C): Hub<C> {
    if h.closed then h.(chans := h.chans[c := Chan([], true)])
    else h.(subs := h.subs + {c}, chans := h.chans[c := Chan([], false)])
  }

  function Delivered(ch: Chan, ev: Event): Chan {
    if HasRoom(ch) then Send(ch, ev) else Shut(ch)
  }

  function HubPublish<C>(h: Hub<C>, ev: Event): Hub<C>
    requires h.subs <= h.chans.Keys
  {
    if h.closed then h
    else h.(subs := (set c | c in h.subs && HasRoom(h.chans[c])),
            chans := (map c | c in h.chans :: if c in h.subs then Delivered(h.chans[c], ev) else h.chans[c]))
  }

  function HubDrop<C>(h: Hub<C>, c: C): Hub<C>
    requires h.subs <= h.chans.Keys
  {
    if c in h.subs then h.(subs := h.subs - {c}, chans := h.chans[c := Shut(h.chans[c])]) else h
  }

  function HubClose<C>(h: Hub<C>): Hub<C> {
    if h.closed then h
    else Hub({}, (map c | c in h.chans :: if c in h.subs then Shut(h.chans[c]) else h.chans[c]), true)
  }

  function HubReceive<C>(h: Hub<C>, c: C): Hub<C>
    requires c in h.chans && h.chans[c].queue != []
  {
    h.(chans := h.chans[c := h.chans[c].(queue := h.chans[c].queue[1..])])
  }

  // --- Runs, with the history a subscriber's view is measured against ---

  datatype Act<C> = Subscribe(c: C) | Publish(ev: Event) | Drop(c: C) | CloseAll | Receive(c: C)

  predicate HubPossible<C>(h: Hub<C>, a: Act<C>) {
    match a
    case Subscribe(c) => c !in h.chans
    case Receive(c) => c in h.chans && h.chans[c].queue != []
    case _ => true
  }

  function HubDo<C>(h: Hub<C>, a: Act<C>): Hub<C>
    requires h.subs <= h.chans.Keys && HubPossible(h, a)
  {
    match a
    case Subscribe(c) => HubSubscribe(h, c)
    case Publish(ev) => HubPublish(h, ev)
    case Drop(c) => HubDrop(h, c)
    case CloseAll => HubClose(h)
    case Receive(c) => HubReceive(h, c)
  }

  /** The hub, the events published while it was open, and per channel what was received and when it subscribed. */
  datatype World<C(==)> = World(hub: Hub<C>, published: seq<Event>, received: map<C, seq<Event>>, start: map<C, nat>)

  predicate Possible<C>(w: World<C>, a: Act<C>) { HubPossible(w.hub, a) }

  function Do<C>(w: World<C>, a: Act<C>): World<C>
    requires w.hub.subs <= w.hub.chans.Keys && w.hub.chans.Keys <= w.received.Keys && Possible(w, a)
  {
    var v := w.(hub := HubDo(w.hub, a));
    match a
    case Subscribe(c) => v.(received := w.received[c := []], start := w.start[c := |w.published|])
    case Publish(ev) => if w.hub.closed then v else v.(published := w.published + [ev])
    case Receive(c) => v.(received := w.received[c := w.received[c] + [w.hub.chans[c].queue[0]]])
    case _ => v
  }

  /** Received plus queued is a contiguous stretch of what was published, from the subscription on;
      it reaches the present while subscribed. */
  ghost predicate Window<C>(w: World<C>, c: C)
    requires c in w.hub.chans && c in w.received && c in w.start
  {
    var seen := w.received[c] + w.hub.chans[c].queue;
    && w.start[c] + |seen| <= |w.published|
    && seen == w.published[w.start[c]..w.start[c] + |seen|]
    && (c in w.hub.subs ==> w.start[c] + |seen| == |w.published|)
  }

  ghost predicate Consistent<C>(w: World<C>) {
    && WellFormed(w.hub)
    && w.hub.chans.Keys == w.received.Keys == w.start.Keys
    && (forall c :: c in w.hub.chans ==> Window(w, c))
  }

  /** Actions that close c, and actions that send to c. */
  predicate Closes<C>(w: World<C>, a: Act<C>, c: C)
    requires w.hub.subs <= w.hub.chans.Keys
  {
    match a
    case Subscribe(d) => c == d && w.hub.closed
    case Publish(_) => !w.hub.closed && c in w.hub.subs && !HasRoom(w.hub.chans[c])
    case Drop(d) => c == d && c in w.hub.subs
    case CloseAll => !w.hub.closed && c in w.hub.subs
    case Receive(_) => false
  }

  predicate SendsTo<C>(w: World<C>, a: Act<C>, c: C)
    requires w.hub.subs <= w.hub.chans.Keys
  {
    a.Publish? && !w.hub.closed && c in w.hub.subs && HasRoom(w.hub.chans[c])
  }

  lemma PublishKeepsWindow<C>(w: World<C>, ev: Event, c: C)
    requires Consistent(w) && c in w.hub.chans
    ensures Window(Do(w, Publish(ev)), c)
  {
    assert Window(w, c);
    var w' := Do(w, Publish(ev));
    var seen := w.received[c] + w.hub.chans[c].queue;
    var seen' := w'.received[c] + w'.hub.chans[c].queue;
    if w.hub.closed {
      assert w' == w;
    } else {
      assert forall i, j :: 0 <= i <= j <= |w.published| ==> w'.published[i..j] == w.published[i..j];
      if c in w.hub.subs && HasRoom(w.hub.chans[c]) {
        assert seen' == seen + [ev];
        assert w.published == w.published[..w.start[c]] + seen;
      } else {
        assert seen' == seen;
      }
    }
  }

  lemma ReceiveKeepsWindow<C>(w: World<C>, d: C, c: C)
    requires Consistent(w) && Possible(w, Receive(d)) && c in w.hub.chans
    ensures Window(Do(w, Receive(d)), c)
  {
    assert Window(w, c);
    var w' := Do(w, Receive(d));
    var q := w.hub.chans[c].queue;
    if c == d {
      assert q == [q[0]] + q[1..];
      assert w'.received[c] + w'.hub.chans[c].queue == w.received[c] + q;
    }
  }

  lemma HubKeepsWellFormed<C>(h: Hub<C>, a: Act<C>)
    requires WellFormed(h) && HubPossible(h, a)
    ensures WellFormed(HubDo(h, a))
  {
  }

  lemma DoKeepsWellFormed<C>(w: World<C>, a: Act<C>)
    requires Consistent(w) && Possible(w, a)
    ensures WellFormed(Do(w, a).hub)
    ensures Do(w, a).hub.chans.Keys == Do(w, a).received.Keys == Do(w, a).start.Keys
  {
    HubKeepsWellFormed(w.hub, a);
    ChannelsAfter(w.hub, a);
  }

  lemma ChannelsAfter<C>(h: Hub<C>, a: Act<C>)
    requires h.subs <= h.chans.Keys && HubPossible(h, a)
    ensures HubDo(h, a).chans.Keys == h.chans.Keys + if a.Subscribe? then {a.c} else {}
  {
  }

  lemma OthersKeepWindow<C>(w: World<C>, a: Act<C>, c: C)
    requires Consistent(w) && Possible(w, a) && c in w.hub.chans && (a.Subscribe? || a.Drop? || a.CloseAll?)
    ensures Window(Do(w, a), c)
  {
    assert Window(w, c);
    assert Do(w, a).received[c] + Do(w, a).hub.chans[c].queue == w.received[c] + w.hub.chans[c].queue;
  }

  lemma DoKeepsWindow<C>(w: World<C>, a: Act<C>, c: C)
    requires Consistent(w) && Possible(w, a) && c in Do(w, a).hub.chans
    ensures c in Do(w, a).received && c in Do(w, a).start && Window(Do(w, a), c)
  {
    if a.Subscribe? && c == a.c {
      assert Do(w, a).received[c] + Do(w, a).hub.chans[c].queue == [];
    } else if a.Publish? {
      PublishKeepsWindow(w, a.ev, c);
    } else if a.Receive? {
      ReceiveKeepsWindow(w, a.c, c);
    } else {
      OthersKeepWindow(w, a, c);
    }
  }

  /** One action keeps every channel well formed and every window contiguous. */
  lemma DoKeepsConsistent<C>(w: World<C>, a: Act<C>)
    requires Consistent(w) && Possible(w, a)
    ensures Consistent(Do(w, a))
  {
    DoKeepsWellFormed(w, a);
    var w' := Do(w, a);
    assert forall c :: c in w'.hub.chans ==> Window(w', c) by {
      forall c | c in w'.hub.chans
        ensures Window(w', c)
      {
        DoKeepsWindow(w, a, c);
      }
    }
  }

  lemma ChannelLifetime<C>(w: World<C>, a: Act<C>, c: C)
    requires Consistent(w) && Possible(w, a)
    ensures c in w.hub.chans && w.hub.chans[c].closed ==> !Closes(w, a, c) && !SendsTo(w, a, c)
    ensures c in w.hub.chans && w.hub.chans[c].closed ==> c in Do(w, a).hub.chans && Do(w, a).hub.chans[c].closed
    ensures Closes(w, a, c) ==> c in Do(w, a).hub.chans && Do(w, a).hub.chans[c].closed
    ensures a.Publish? && Closes(w, a, c) ==> |w.hub.chans[c].queue| == 256
  {
  }

  /** Who is subscribed, and whether the broker is open, changes just so: a channel joins when it subscribes to an open
      broker, stays unless the action closes it, and CloseAll shuts the broker for good. */
  lemma SubscribersAfter<C>(w: World<C>, a: Act<C>, c: C)
    requires Consistent(w) && Possible(w, a)
    ensures c in Do(w, a).hub.subs <==> (a == Subscribe(c) && !w.hub.closed) || (c in w.hub.subs && !Closes(w, a, c))
    ensures Do(w, a).hub.closed <==> w.hub.closed || a.CloseAll?
    ensures c in w.hub.chans && SendsTo(w, a, c) ==> Do(w, a).hub.chans[c].queue == w.hub.chans[c].queue + [a.ev]
  {
  }

  function Play<C>(w: World<C>, acts: seq<Act<C>>): World<C>
    requires Consistent(w) && Playable(w, acts)
    ensures Consistent(Play(w, acts))
    decreases |acts|
  {
    if acts == [] then w
    else
      DoKeepsConsistent(w, acts[0]);
      Play(Do(w, acts[0]), acts[1..])
  }

  ghost predicate Playable<C>(w: World<C>, acts: seq<Act<C>>)
    requires Consistent(w)
    decreases |acts|
  {
    if acts == [] then true
    else
      Possible(w, acts[0]) &&
      (DoKeepsConsistent(w, acts[0]);
       Playable(Do(w, acts[0]), acts[1..]))
  }

  ghost function CountCloses<C>(w: World<C>, acts: seq<Act<C>>, c: C): nat
    requires Consistent(w) && Playable(w, acts)
    decreases |acts|
  {
    if acts == [] then 0
    else
      DoKeepsConsistent(w, acts[0]);
      (if Closes(w, acts[0], c) then 1 else 0) + CountCloses(Do(w, acts[0]), acts[1..], c)
  }

  /** In every run no channel is closed twice, whatever mix of saturation, unsubscribe and shutdown hits it. */
  lemma {:induction false} ClosedAtMostOnce<C>(w: World<C>, acts: seq<Act<C>>, c: C)
    requires Consistent(w) && Playable(w, acts)
    ensures CountCloses(w, acts, c) <= if c in w.hub.chans && w.hub.chans[c].closed then 0 else 1
    decreases |acts|
  {
    if acts != [] {
      DoKeepsConsistent(w, acts[0]);
      ChannelLifetime(w, acts[0], c);
      ClosedAtMostOnce(Do(w, acts[0]), acts[1..], c);
    }
  }

  function NewWorld<C>(): World<C> {
    World(Hub({}, map[], false), [], map[], map[])
  }

  /** What a subscriber has received and still has queued, after any run from a new broker. */
  lemma SubscriberWindow<C>(acts: seq<Act<C>>, c: C)
    requires Playable(NewWorld<C>(), acts)
    ensures var w := Play(NewWorld<C>(), acts);
            c in w.hub.chans ==>
              && c in w.received && c in w.start
              && Window(w, c)
              && |w.hub.chans[c].queue| <= 256
              && (c in w.hub.subs <==> !w.hub.chans[c].closed)
  {
    var w := Play(NewWorld<C>(), acts);
    assert Consistent(w);
  }

  // --- What one channel sees from here on ---

  ghost predicate HubPlayable<C>(h: Hub<C>, acts: seq<Act<C>>)
    decreases |acts|
  {
    h.subs <= h.chans.Keys && (acts == [] || (HubPossible(h, acts[0]) && HubPlayable(HubDo(h, acts[0]), acts[1..])))
  }

  ghost function HubRun<C>(h: Hub<C>, acts: seq<Act<C>>): Hub<C>
    requires HubPlayable(h, acts)
    decreases |acts|
  {
    if acts == [] then h else HubRun(HubDo(h, acts[0]), acts[1..])
  }

  /** The events published while the hub is open. */
  ghost function PublishedBy<C>(h: Hub<C>, acts: seq<Act<C>>): seq<Event>
    requires HubPlayable(h, acts)
    decreases |acts|
  {
    if acts == [] then []
    else (if acts[0].Publish? && !h.closed then [acts[0].ev] else []) + PublishedBy(HubDo(h, acts[0]), acts[1..])
  }

  ghost function ReceivedBy<C>(h: Hub<C>, acts: seq<Act<C>>, c: C): seq<Event>
    requires HubPlayable(h, acts)
    decreases |acts|
  {
    if acts == [] then []
    else (if acts[0] == Receive(c) then [h.chans[c].queue[0]] else []) + ReceivedBy(HubDo(h, acts[0]), acts[1..], c)
  }

  /** How one action moves a channel's queue. */
  lemma QueueAfter<C>(h: Hub<C>, a: Act<C>, c: C)
    requires WellFormed(h) && HubPossible(h, a) && c in h.chans
    ensures var h' := HubDo(h, a);
            && c in h'.chans
            && (c in h'.subs ==> c in h.subs)
            && (if a == Receive(c) then h.chans[c].queue == [h.chans[c].queue[0]] + h'.chans[c].queue
                else if a.Publish? && !h.closed && c in h'.subs then h'.chans[c].queue == h.chans[c].queue + [a.ev]
                else h'.chans[c].queue == h.chans[c].queue)
  {
    if a == Receive(c) {
      assert h.chans[c].queue == [h.chans[c].queue[0]] + h.chans[c].queue[1..];
    }
  }

  /** From any state of the hub, what a channel receives plus what is then queued is what was queued before and the
      events published since, cut off where it was disconnected. */
  lemma {:induction false} WindowFromHere<C>(h: Hub<C>, acts: seq<Act<C>>, c: C)
    requires WellFormed(h) && HubPlayable(h, acts) && c in h.chans
    ensures var h' := HubRun(h, acts);
            && WellFormed(h') && c in h'.chans
            && var seen := ReceivedBy(h, acts, c) + h'.chans[c].queue;
            && seen <= h.chans[c].queue + PublishedBy(h, acts)
            && (c in h'.subs ==> c in h.subs && seen == h.chans[c].queue + PublishedBy(h, acts))
            && (c !in h.subs ==> seen == h.chans[c].queue)
    decreases |acts|
  {
    if acts != [] {
      var h1 := HubDo(h, acts[0]);
      HubKeepsWellFormed(h, acts[0]);
      QueueAfter(h, acts[0], c);
      WindowFromHere(h1, acts[1..], c);
      WindowCons(h, acts, c);
    }
  }

  /** Once closed, a broker stays closed: nobody is subscribed again, a channel handed out later is closed and empty, and
      nothing counts as published. */
  lemma {:induction false} ClosedForGood<C>(h: Hub<C>, acts: seq<Act<C>>, c: C)
    requires WellFormed(h) && HubPlayable(h, acts) && (h.closed || (acts != [] && acts[0].CloseAll?))
    ensures var h' := HubRun(h, acts);
            && h'.closed && h'.subs == {} && PublishedBy(h, acts) == []
            && (c in h'.chans && c !in h.chans ==> h'.chans[c] == Chan([], true))
    decreases |acts|
  {
    if acts != [] {
      var h1 := HubDo(h, acts[0]);
      HubKeepsWellFormed(h, acts[0]);
      ChannelsAfter(h, acts[0]);
      ClosedForGood(h1, acts[1..], c);
      if c in h1.chans && c !in h.chans {
        assert h1.chans[c] == Chan([], true);
        ClosedStaysEmpty(h1, acts[1..], c);
      }
    }
  }

  lemma {:induction false} ClosedStaysEmpty<C>(h: Hub<C>, acts: seq<Act<C>>, c: C)
    requires WellFormed(h) && HubPlayable(h, acts) && h.closed && c in h.chans && h.chans[c] == Chan([], true)
    ensures c in HubRun(h, acts).chans && HubRun(h, acts).chans[c] == Chan([], true)
    decreases |acts|
  {
    if acts != [] {
      HubKeepsWellFormed(h, acts[0]);
      ClosedStaysEmpty(HubDo(h, acts[0]), acts[1..], c);
    }
  }

  lemma WindowCons<C>(h: Hub<C>, acts: seq<Act<C>>, c: C)
    requires WellFormed(h) && HubPlayable(h, acts) && c in h.chans && acts != []
    requires var h1, h' := HubDo(h, acts[0]), HubRun(h, acts);
             && c in h1.chans && c in h'.chans && WellFormed(h')
             && var seen := ReceivedBy(h1, acts[1..], c) + h'.chans[c].queue;
             && seen <= h1.chans[c].queue + PublishedBy(h1, acts[1..])
             && (c in h'.subs ==> c in h1.subs && seen == h1.chans[c].queue + PublishedBy(h1, acts[1..]))
             && (c !in h1.subs ==> seen == h1.chans[c].queue)
    ensures var h' := HubRun(h, acts);
            && var seen := ReceivedBy(h, acts, c) + h'.chans[c].queue;
            && seen <= h.chans[c].queue + PublishedBy(h, acts)
            && (c in h'.subs ==> c in h.subs && seen == h.chans[c].queue + PublishedBy(h, acts))
            && (c !in h.subs ==> seen == h.chans[c].queue)
  {
    var a, h1, h' := acts[0], HubDo(h, acts[0]), HubRun(h, acts);
    var q, q1, q' := h.chans[c].queue, h1.chans[c].queue, h'.chans[c].queue;
    var r, p := ReceivedBy(h1, acts[1..], c), PublishedBy(h1, acts[1..]);
    QueueAfter(h, a, c);
    if a == Receive(c) {
      Assoc([q[0]], r, q');
      Assoc([q[0]], q1, p);
    } else if a.Publish? && !h.closed {
      Assoc(q, [a.ev], p);
      assert [] + r == r;
    } else {
      assert [] + r == r && [] + p == p;
    }
  }

  // --- The classes ---

  /** A Go channel of capacity SUBSCRIBER_BUFFER. Closing it twice or sending on it once closed would panic. */
  class Channel {
    var queue: seq<Event>
    var closed: bool

    ghost function View(): Chan
      reads this
    {
      Chan(queue, closed)
    }

    constructor ()
      ensures View() == Chan([], false)
    {
      queue, closed := [], false;
    }

    /** The non-blocking send of a select with a default branch. */
    method TrySend(ev: Event) returns (sent: bool)
      requires !closed
      modifies this
      ensures sent <==> HasRoom(old(View()))
      ensures View() == if sent then Send(old(View()), ev) else old(View())
    {
      sent := |queue| < SUBSCRIBER_BUFFER;
      if sent {
        queue := queue + [ev];
      }
    }

    method Close()
      requires !closed
      modifies this
      ensures View() == Shut(old(View()))
    {
      closed := true;
    }

    method Receive() returns (ev: Event)
      requires queue != []
      modifies this
      ensures ev == old(queue)[0] && View() == old(View()).(queue := old(queue)[1..])
    {
      ev := queue[0];
      queue := queue[1..];
    }
  }

  class Broker {
    var subs: set<Channel>
    var closed: bool
    /** Every channel ever handed out, and every event passed to Publish. */
    ghost var handedOut: set<Channel>
    ghost var log: seq<Event>

    ghost function View(): Hub<Channel>
      reads this, handedOut
    {
      Hub(subs, (map ch | ch in handedOut :: ch.View()), closed)
    }

    ghost predicate Valid()
      reads this, handedOut
    {
      && subs <= handedOut
      && (forall ch :: ch in handedOut ==> (ch in subs <==> !ch.closed) && |ch.queue| <= SUBSCRIBER_BUFFER)
      && (closed ==> subs == {})
    }

    lemma ValidIsWellFormed()
      ensures Valid() <==> WellFormed(View())
    {
      assert forall ch :: ch in handedOut ==> View().chans[ch] == ch.View();
    }

    /** A channel handed out by a valid broker sees, from now on, exactly what is published until it is cut off. */
    lemma ChannelSees(ch: Channel, acts: seq<Act<Channel>>)
      requires Valid() && ch in handedOut && HubPlayable(View(), acts)
      ensures var h' := HubRun(View(), acts);
              && ch in h'.chans
              && ReceivedBy(View(), acts, ch) + h'.chans[ch].queue <= ch.queue + PublishedBy(View(), acts)
              && (ch in h'.subs ==>
                    ReceivedBy(View(), acts, ch) + h'.chans[ch].queue == ch.queue + PublishedBy(View(), acts))
    {
      ValidIsWellFormed();
      WindowFromHere(View(), acts, ch);
    }

    constructor ()
      ensures Valid() && View() == Hub({}, map[], false) && log == [] && handedOut == {}
    {
      subs, closed, handedOut, log := {}, false, {}, [];
    }

    method Subscribe() returns (ch: Channel)
      requires Valid()
      modifies this
      ensures Valid() && fresh(ch) && handedOut == old(handedOut) + {ch} && log == old(log)
      ensures View() == HubSubscribe(old(View()), ch)
    {
      ch := new Channel();
      handedOut := handedOut + {ch};
      if closed {
        ch.Close();
      } else {
        subs := subs + {ch};
      }
      assert View().chans == HubSubscribe(old(View()), ch).chans;
    }

    method Publish(ev: Event)
      requires Valid()
      modifies this, handedOut
      ensures Valid() && handedOut == old(handedOut) && log == old(log) + [ev]
      ensures View() == HubPublish(old(View()), ev)
    {
      log := log + [ev];
      if closed {
        assert View() == old(View());
        return;
      }
      var todo := subs;
      while todo != {}
        invariant todo <= old(subs) <= handedOut == old(handedOut)
        invariant closed == old(closed) && log == old(log) + [ev]
        invariant subs == set ch | ch in old(subs) && (ch in todo || HasRoom(old(ch.View())))
        invariant forall ch :: ch in handedOut ==>
                    ch.View() == if ch in old(subs) - todo then Delivered(old(ch.View()), ev) else old(ch.View())
        decreases todo
      {
        var ch :| ch in todo;
        var sent := ch.TrySend(ev);
        if !sent {
          subs := subs - {ch};
          ch.Close();
        }
        todo := todo - {ch};
      }
      assert View().subs == HubPublish(old(View()), ev).subs;
      assert View().chans == HubPublish(old(View()), ev).chans;
    }

    /** The release function of a subscription; calling it again, or after a cut, does nothing. */
    method Unsubscribe(ch: Channel)
      requires Valid()
      modifies this, handedOut
      ensures Valid() && handedOut == old(handedOut) && log == old(log)
      ensures View() == HubDrop(old(View()), ch)
    {
      if ch in subs {
        subs := subs - {ch};
        ch.Close();
        assert View().chans == HubDrop(old(View()), ch).chans;
      }
    }

    method Close()
      requires Valid()
      modifies this, handedOut
      ensures Valid() && handedOut == old(handedOut) && log == old(log)
      ensures View() == HubClose(old(View()))
    {
      if closed {
        return;
      }
      closed := true;
      var todo := subs;
      while todo != {}
        invariant todo <= old(subs) <= handedOut == old(handedOut)
        invariant closed && log == old(log) && subs == todo
        invariant forall ch :: ch in handedOut ==>
                    ch.View() == if ch in old(subs) - todo then Shut(old(ch.View())) else old(ch.View())
        decreases todo
      {
        var ch :| ch in todo;
        subs := subs - {ch};
        ch.Close();
        todo := todo - {ch};
      }
      assert View().chans == HubClose(old(View())).chans;
    }
  }
}
