/**
 One call of `init_pub` against any number of subscribers (comm_zmq/src/comm_handler.cpp).  The
 publisher and the subscribers each run the event loop of CommHandler on any events; hellos are
 republished until enough replies were drained, and any subscriber may miss any of them.
 */
module PubHandshake {
  import opened Sequences
  import opened Text
  import opened CommHandler

  /** The publisher's internal id, the group, and the subscribers' internal ids. */
  datatype Config = Config(id: int, gid: int, ids: seq<int>) {
    ghost predicate Ok() {
      && IsInt32(id)
      && forall i, j | 0 <= i < j < |ids| :: ids[i] != ids[j]
    }
  }

  /** A subscriber: its handler, the publications that will still reach it, and its channel to
      the publisher.  `greeted` and `answered` are history: a hello for the group has reached it,
      and its router socket has sent the reply. */
  datatype Subscriber = Subscriber(
    handler: State, inbox: seq<Tagged>, uplink: seq<Data>, greeted: bool, answered: bool)

  /** `drained` are the ids read from suberq by `init_pub`, whose number it counts. */
  datatype System = System(pub: State, subs: seq<Subscriber>, nsubs: nat, drained: seq<int>)

  /** `PublishHello` is the publisher's own hello; `PublishOther` is any other publication, of
      any publisher and group, hellos of other publishers included.  Both reach the subscribers
      in `reached` only.  `SubEvent` and `PubEvent` are any other events of the handlers: requests
      of their applications, messages of other nodes, failures, the end.  `sent` says whether the
      router socket could send what the handler passed to it. */
  datatype Step =
    | PublishHello(reached: set<nat>)
    | PublishOther(t: Tagged, reached: set<nat>)
    | SubReceive(k: nat, sent: bool)
    | SubEvent(k: nat, e: Event, sent: bool)
    | PubReceive(k: nat)
    | PubEvent(e: Event)
    | Drain

  function Start(c: Config): (s: System) {
    System(CommHandler.Init(), seq(|c.ids|, _ => Subscriber(CommHandler.Init(), [], [], false, false)), 0, [])
  }

  /** The reserved reply is not used as application data. */
  predicate Unreserved(e: Event) { (e.OnMsgq? || e.OnRouter?) ==> e.data != SUB_REPLY }

  predicate Enabled(c: Config, s: System, step: Step) {
    match step
    case PublishHello(_) => true
    case PublishOther(t, _) => !IsHello(t.data, c.id)
    case SubReceive(k, _) => k < |s.subs| && s.subs[k].inbox != []
    // Publications come through the inbox.
    case SubEvent(k, e, _) => k < |s.subs| && !e.OnSub? && Unreserved(e)
    case PubReceive(k) => k < |s.subs| && s.subs[k].uplink != []
    // Replies come through the channels of the subscribers.
    case PubEvent(e) => Unreserved(e)
    case Drain => s.pub.suberq != []
  }

  /** A publication reaches some of the subscribers. */
  function Deliver(subs: seq<Subscriber>, t: Tagged, reached: set<nat>): (r: seq<Subscriber>) {
    seq(|subs|, k requires 0 <= k < |subs| =>
      if k in reached then subs[k].(inbox := subs[k].inbox + [t]) else subs[k])
  }

  /** Whether the last message on a router socket is new and for node p. */
  predicate Sends(h: State, h': State, p: int) {
    |h'.router| > |h.router| && h'.router[|h'.router| - 1].id == p
  }

  /** The subscriber's handler takes an event.  What it then has for the publisher is sent, or
      lost. */
  function Take(c: Config, x: Subscriber, e: Event, sent: bool): (r: Subscriber) {
    var h := CommHandler.Step(x.handler, e);
    x.(handler := h,
       uplink := if sent && Sends(x.handler, h, c.id)
                 then x.uplink + [h.router[|h.router| - 1].data] else x.uplink)
  }

  /** The subscriber takes one publication. */
  function Receive(c: Config, x: Subscriber, sent: bool): (r: Subscriber)
    requires x.inbox != []
  {
    var t := x.inbox[0];
    var y := Take(c, x, OnSub(t.id, t.data), sent);
    y.(inbox := x.inbox[1..], greeted := x.greeted || t == Tagged(c.gid, PubHello(c.id)),
       answered := x.answered || y.uplink != x.uplink)
  }

  function Do(c: Config, s: System, step: Step): (r: System)
    requires Enabled(c, s, step) && |s.subs| == |c.ids|
  {
    match step
    case PublishHello(reached) => s.(subs := Deliver(s.subs, Tagged(c.gid, PubHello(c.id)), reached))
    case PublishOther(t, reached) => s.(subs := Deliver(s.subs, t, reached))
    case SubReceive(k, sent) => s.(subs := s.subs[k := Receive(c, s.subs[k], sent)])
    case SubEvent(k, e, sent) => s.(subs := s.subs[k := Take(c, s.subs[k], e, sent)])
    case PubReceive(k) =>
      var x := s.subs[k];
      s.(pub := CommHandler.Step(s.pub, OnRouter(c.ids[k], x.uplink[0])),
         subs := s.subs[k := x.(uplink := x.uplink[1..])])
    case PubEvent(e) => s.(pub := CommHandler.Step(s.pub, e))
    case Drain =>
      s.(pub := s.pub.(suberq := s.pub.suberq[1..]), nsubs := s.nsubs + 1,
         drained := s.drained + [s.pub.suberq[0].id])
  }

  datatype Outcome = Stuck | At(s: System)

  function From(c: Config, s: System, steps: seq<Step>): (o: Outcome)
    requires |s.subs| == |c.ids|
    decreases |steps|
  {
    if steps == [] then At(s)
    else if Enabled(c, s, steps[0]) then From(c, Do(c, s, steps[0]), steps[1..])
    else Stuck
  }

  // ---------------------------------------------------------------- invariant

  function Replies(ds: seq<Data>): (n: nat) {
    if ds == [] then 0 else (if ds[0] == SUB_REPLY then 1 else 0) + Replies(ds[1..])
  }

  function Waiting(ts: seq<Tagged>, id: int): (n: nat) {
    if ts == [] then 0 else (if ts[0].id == id then 1 else 0) + Waiting(ts[1..], id)
  }

  /** The replies of subscriber k, wherever they are. */
  ghost function RepliesOf(c: Config, s: System, k: nat): nat
    requires k < |s.subs| && |s.subs| == |c.ids|
  {
    Replies(s.subs[k].uplink) + Waiting(s.pub.suberq, c.ids[k]) + CountOf(s.drained, c.ids[k])
  }

  /** At most one reply of subscriber k exists, and as long as the publisher's loop goes on none that
      was sent is lost; one exists only once its router socket has sent it, after
      its publishermap knows the publisher, which it does only after a hello. */
  ghost predicate Once(c: Config, s: System, k: nat)
    requires k < |s.subs| && |s.subs| == |c.ids|
  {
    var x := s.subs[k];
    && RepliesOf(c, s, k) <= (if x.answered then 1 else 0)
    && (!s.pub.ended ==> RepliesOf(c, s, k) == (if x.answered then 1 else 0))
    && (x.answered ==> c.id in x.handler.publishermap)
    && (c.id in x.handler.publishermap ==> x.greeted)
    && Inbox(c, x.inbox)
  }

  predicate Allowed(c: Config, t: Tagged) { t == Tagged(c.gid, PubHello(c.id)) || !IsHello(t.data, c.id) }

  ghost predicate Inbox(c: Config, ts: seq<Tagged>) {
    forall i | 0 <= i < |ts| :: Allowed(c, ts[i])
  }

  ghost predicate KnownIds(c: Config, s: System) {
    && (forall i | 0 <= i < |s.pub.suberq| :: s.pub.suberq[i].id in c.ids)
    && (forall i | 0 <= i < |s.drained| :: s.drained[i] in c.ids)
  }

  ghost predicate Inv(c: Config, s: System) {
    && |s.subs| == |c.ids| && s.nsubs == |s.drained|
    && KnownIds(c, s)
    && forall k: nat | k < |s.subs| :: Once(c, s, k)
  }

  lemma {:induction false} RepliesAppend(ds: seq<Data>, d: Data)
    ensures Replies(ds + [d]) == Replies(ds) + if d == SUB_REPLY then 1 else 0
  {
    if ds == [] {
      assert ds + [d] == [d];
      assert [d][1..] == [];
    } else {
      RepliesAppend(ds[1..], d);
      assert (ds + [d])[1..] == ds[1..] + [d];
    }
  }

  lemma {:induction false} WaitingAppend(ts: seq<Tagged>, t: Tagged, id: int)
    ensures Waiting(ts + [t], id) == Waiting(ts, id) + if t.id == id then 1 else 0
  {
    if ts == [] {
      assert ts + [t] == [t];
      assert [t][1..] == [];
    } else {
      WaitingAppend(ts[1..], t, id);
      assert (ts + [t])[1..] == ts[1..] + [t];
    }
  }

  lemma DeliverInv(c: Config, s: System, t: Tagged, reached: set<nat>)
    requires Inv(c, s) && Allowed(c, t)
    ensures Inv(c, s.(subs := Deliver(s.subs, t, reached)))
  {
    var s' := s.(subs := Deliver(s.subs, t, reached));
    forall k: nat | k < |s'.subs| ensures Once(c, s', k) { assert Once(c, s, k); }
  }

  /** A handler that takes a hello for the first time replies; otherwise it does nothing. */
  lemma HelloStep(h: State, gid: int, id: int)
    requires IsInt32(id) && !h.ended
    ensures CommHandler.Step(h, OnSub(gid, PubHello(id)))
            == if id in h.publishermap then h
               else h.(router := h.router + [Tagged(id, SUB_REPLY)], publishermap := h.publishermap[id := true])
  {
    HelloRoundTrip(id);
  }

  /** Any other publication leaves what the handler knows of the publisher, and sends it nothing. */
  lemma OtherStep(h: State, gid: int, data: Data, id: int)
    requires !IsHello(data, id)
    ensures var h' := CommHandler.Step(h, OnSub(gid, data));
            !Sends(h, h', id) && (id in h'.publishermap <==> id in h.publishermap)
  {
    if h.ended { EndedStays(h, OnSub(gid, data)); } else { RouterStep(h, OnSub(gid, data)); }
  }

  /** No event other than a publication makes a handler send the reply or changes whom it knows as
      a publisher. */
  lemma OwnStep(h: State, e: Event, id: int)
    requires !e.OnSub? && Unreserved(e)
    ensures var h' := CommHandler.Step(h, e);
            && (Sends(h, h', id) ==> h'.router[|h'.router| - 1].data != SUB_REPLY)
            && (id in h'.publishermap <==> id in h.publishermap)
  {
    if h.ended {
      EndedStays(h, e);
    } else {
      RouterStep(h, e);
      assert |INIT_MSG| != |SUB_REPLY|;
    }
  }

  /** Only the reply goes to the queue of subscribers. */
  lemma PubStep(h: State, e: Event)
    requires Unreserved(e)
    ensures CommHandler.Step(h, e).suberq == h.suberq
  {
  }

  /** The subscriber replies to the first hello it takes and to no other. */
  lemma ReceiveOnce(c: Config, x: Subscriber, sent: bool)
    requires IsInt32(c.id) && x.inbox != [] && Inbox(c, x.inbox)
    requires x.answered ==> c.id in x.handler.publishermap
    ensures var r := Receive(c, x, sent); var known := c.id in x.handler.publishermap;
            && Inbox(c, r.inbox)
            && (if r.answered == x.answered then Replies(r.uplink) == Replies(x.uplink)
                else Replies(r.uplink) == Replies(x.uplink) + 1)
            && (known ==> r.answered == x.answered)
            && (r.answered ==> c.id in r.handler.publishermap)
            && (x.answered ==> r.answered)
            && (known ==> c.id in r.handler.publishermap)
            && (c.id in r.handler.publishermap ==> known || r.greeted)
            && (x.greeted ==> r.greeted)
  {
    var t := x.inbox[0];
    if x.handler.ended {
      EndedStays(x.handler, OnSub(t.id, t.data));
    } else if t == Tagged(c.gid, PubHello(c.id)) {
      HelloStep(x.handler, c.gid, c.id);
      RepliesAppend(x.uplink, SUB_REPLY);
    } else {
      OtherStep(x.handler, t.id, t.data, c.id);
    }
  }

  lemma SubReceiveInv(c: Config, s: System, k: nat, sent: bool)
    requires c.Ok() && Inv(c, s) && Enabled(c, s, SubReceive(k, sent))
    ensures Inv(c, Do(c, s, SubReceive(k, sent)))
  {
    var s' := Do(c, s, SubReceive(k, sent));
    assert Once(c, s, k);
    ReceiveOnce(c, s.subs[k], sent);
    forall i: nat | i < |s'.subs| ensures Once(c, s', i) { assert Once(c, s, i); }
  }

  lemma SubEventInv(c: Config, s: System, k: nat, e: Event, sent: bool)
    requires Inv(c, s) && Enabled(c, s, SubEvent(k, e, sent))
    ensures Inv(c, Do(c, s, SubEvent(k, e, sent)))
  {
    var s' := Do(c, s, SubEvent(k, e, sent));
    TakeOnce(c, s.subs[k], e, sent);
    forall i: nat | i < |s'.subs| ensures Once(c, s', i) { assert Once(c, s, i); }
  }

  lemma TakeOnce(c: Config, x: Subscriber, e: Event, sent: bool)
    requires !e.OnSub? && Unreserved(e)
    ensures var r := Take(c, x, e, sent);
            && Replies(r.uplink) == Replies(x.uplink)
            && (c.id in r.handler.publishermap <==> c.id in x.handler.publishermap)
            && r.greeted == x.greeted && r.answered == x.answered && r.inbox == x.inbox
  {
    var h := CommHandler.Step(x.handler, e);
    OwnStep(x.handler, e, c.id);
    if Sends(x.handler, h, c.id) { RepliesAppend(x.uplink, h.router[|h.router| - 1].data); }
  }

  lemma PubEventInv(c: Config, s: System, e: Event)
    requires Inv(c, s) && Unreserved(e)
    ensures Inv(c, Do(c, s, PubEvent(e)))
  {
    PubStep(s.pub, e);
    var s' := Do(c, s, PubEvent(e));
    forall i: nat | i < |s'.subs| ensures Once(c, s', i) { assert Once(c, s, i); }
  }

  lemma PubReceiveOnce(c: Config, s: System, k: nat, i: nat)
    requires c.Ok() && Inv(c, s) && Enabled(c, s, PubReceive(k)) && i < |s.subs|
    ensures Once(c, Do(c, s, PubReceive(k)), i)
  {
    var d := s.subs[k].uplink[0];
    assert Once(c, s, i);
    WaitingAppend(s.pub.suberq, Tagged(c.ids[k], d), c.ids[i]);
  }

  lemma PubReceiveInv(c: Config, s: System, k: nat)
    requires c.Ok() && Inv(c, s) && Enabled(c, s, PubReceive(k))
    ensures Inv(c, Do(c, s, PubReceive(k)))
  {
    var s' := Do(c, s, PubReceive(k));
    forall i: nat | i < |s'.subs| ensures Once(c, s', i) { PubReceiveOnce(c, s, k, i); }
    assert c.ids[k] in c.ids;
  }

  lemma DrainInv(c: Config, s: System)
    requires Inv(c, s) && Enabled(c, s, Drain)
    ensures Inv(c, Do(c, s, Drain))
  {
    var s' := Do(c, s, Drain);
    forall i: nat | i < |s'.subs| ensures Once(c, s', i) {
      assert Once(c, s, i);
      CountAppend(s.drained, s.pub.suberq[0].id, c.ids[i]);
    }
  }

  lemma StepInv(c: Config, s: System, step: Step)
    requires c.Ok() && Inv(c, s) && Enabled(c, s, step)
    ensures Inv(c, Do(c, s, step))
  {
    match step
    case PublishHello(reached) => DeliverInv(c, s, Tagged(c.gid, PubHello(c.id)), reached);
    case PublishOther(t, reached) => DeliverInv(c, s, t, reached);
    case SubReceive(k, sent) => SubReceiveInv(c, s, k, sent);
    case SubEvent(k, e, sent) => SubEventInv(c, s, k, e, sent);
    case PubReceive(k) => PubReceiveInv(c, s, k);
    case PubEvent(e) => PubEventInv(c, s, e);
    case Drain => DrainInv(c, s);
  }

  lemma {:induction false} RunInv(c: Config, s: System, steps: seq<Step>)
    requires c.Ok() && Inv(c, s) && From(c, s, steps).At?
    ensures Inv(c, From(c, s, steps).s)
    decreases |steps|
  {
    if steps == [] {
    } else {
      StepInv(c, s, steps[0]);
      RunInv(c, Do(c, s, steps[0]), steps[1..]);
    }
  }

  // ---------------------------------------------------------------- what nsubs means

  lemma {:induction false} CountPositive(xs: seq<int>, i: nat)
    requires i < |xs|
    ensures CountOf(xs, xs[i]) > 0
  {
    if i == |xs| - 1 {
    } else {
      CountPositive(xs[..|xs| - 1], i);
    }
  }

  lemma {:induction false} DistinctSet(xs: seq<int>)
    requires forall i | 0 <= i < |xs| :: CountOf(xs, xs[i]) <= 1
    ensures |SetOf(xs)| == |xs|
  {
    if xs == [] {
    } else {
      var n := |xs| - 1;
      var ys, x := xs[..n], xs[n];
      forall i | 0 <= i < |ys| ensures CountOf(ys, ys[i]) <= 1 { assert CountOf(xs, xs[i]) <= 1; }
      DistinctSet(ys);
      if x in ys {
        var i :| 0 <= i < |ys| && ys[i] == x;
        CountPositive(ys, i);
      }
      assert xs == ys + [x];
      SetOfAppend(ys, x);
    }
  }

  /** The ids of the subscribers that a hello for the group has reached. */
  ghost function GreetedIds(c: Config, s: System): set<int>
    requires |s.subs| == |c.ids|
  {
    set k: nat | k < |s.subs| && s.subs[k].greeted :: c.ids[k]
  }

  /** Subscriber k took its first hello, and the router socket could not send the reply. */
  ghost predicate Lost(c: Config, s: System, k: nat)
    requires k < |s.subs|
  {
    c.id in s.subs[k].handler.publishermap && !s.subs[k].answered
  }

  ghost function NotLostIds(c: Config, s: System): set<int>
    requires |s.subs| == |c.ids|
  {
    set k: nat | k < |s.subs| && !Lost(c, s, k) :: c.ids[k]
  }

  /** What the drained replies say in a state of a run. */
  lemma Drained(c: Config, s: System)
    requires c.Ok() && Inv(c, s)
    ensures s.nsubs == |SetOf(s.drained)|
    ensures SetOf(s.drained) <= GreetedIds(c, s) && SetOf(s.drained) <= NotLostIds(c, s)
  {
    forall i | 0 <= i < |s.drained|
      ensures CountOf(s.drained, s.drained[i]) <= 1
      ensures s.drained[i] in GreetedIds(c, s) && s.drained[i] in NotLostIds(c, s)
    {
      var k :| 0 <= k < |c.ids| && c.ids[k] == s.drained[i];
      assert Once(c, s, k);
      CountPositive(s.drained, i);
    }
    DistinctSet(s.drained);
  }

  /** However often hellos are published and whoever misses them: `nsubs` is the number of
      different subscribers whose reply was drained, and each of them received a hello.  So if
      `init_pub` returns after counting to num_subs, at least num_subs nodes have subscribed. */
  lemma CountsSubscribers(c: Config, steps: seq<Step>)
    requires c.Ok() && From(c, Start(c), steps).At?
    ensures var s := From(c, Start(c), steps).s;
            && s.nsubs == |SetOf(s.drained)|
            && |s.subs| == |c.ids|
            && SetOf(s.drained) <= GreetedIds(c, s)
            && s.nsubs <= |GreetedIds(c, s)|
  {
    var s := From(c, Start(c), steps).s;
    RunInv(c, Start(c), steps);
    Drained(c, s);
    SubsetSize(SetOf(s.drained), GreetedIds(c, s));
  }

  /** The ids of the subscribers whose reply was sent. */
  ghost function AnsweredIds(c: Config, s: System): set<int>
    requires |s.subs| == |c.ids|
  {
    set k: nat | k < |s.subs| && s.subs[k].answered :: c.ids[k]
  }

  lemma {:induction false} CountedIn(xs: seq<int>, x: int)
    requires CountOf(xs, x) > 0
    ensures x in xs
  {
    var n := |xs| - 1;
    if xs[n] == x {
    } else {
      CountedIn(xs[..n], x);
    }
  }

  /** No reply that was sent is lost while the publisher's loop goes on: when none is under way or
      waiting, those drained are exactly those sent, and `nsubs` is their number. */
  lemma AllCounted(c: Config, steps: seq<Step>)
    requires c.Ok() && From(c, Start(c), steps).At?
    requires var s := From(c, Start(c), steps).s;
             !s.pub.ended && s.pub.suberq == [] && forall k: nat | k < |s.subs| :: Replies(s.subs[k].uplink) == 0
    ensures var s := From(c, Start(c), steps).s;
            |s.subs| == |c.ids| && SetOf(s.drained) == AnsweredIds(c, s) && s.nsubs == |AnsweredIds(c, s)|
  {
    var s := From(c, Start(c), steps).s;
    RunInv(c, Start(c), steps);
    Drained(c, s);
    forall x ensures x in SetOf(s.drained) <==> x in AnsweredIds(c, s) {
      if x in SetOf(s.drained) {
        var i :| 0 <= i < |s.drained| && s.drained[i] == x;
        CountPositive(s.drained, i);
        var k :| 0 <= k < |c.ids| && c.ids[k] == x;
        assert Once(c, s, k);
      }
      if x in AnsweredIds(c, s) {
        var k: nat :| k < |s.subs| && s.subs[k].answered && c.ids[k] == x;
        assert Once(c, s, k);
        CountedIn(s.drained, x);
      }
    }
  }

  /** One subscriber that gets the hello and whose reply is sent: `nsubs` becomes 1. */
  lemma Succeeds(c: Config)
    requires c.Ok() && |c.ids| == 1
    ensures var o := From(c, Start(c), [PublishHello({0}), SubReceive(0, true), PubReceive(0), Drain]);
            o.At? && o.s.nsubs == 1 && o.s.drained == [c.ids[0]]
  {
    var s1 := Do(c, Start(c), PublishHello({0}));
    assert s1.subs[0].inbox == [Tagged(c.gid, PubHello(c.id))] && s1.subs[0].handler == CommHandler.Init();
    HelloStep(CommHandler.Init(), c.gid, c.id);
    var s2 := Do(c, s1, SubReceive(0, true));
    assert s2.subs[0].uplink == [SUB_REPLY];
    var s3 := Do(c, s2, PubReceive(0));
    assert s3.pub.suberq == [Tagged(c.ids[0], SUB_REPLY)];
    var s4 := Do(c, s3, Drain);
    assert [PublishHello({0}), SubReceive(0, true), PubReceive(0), Drain][1..] == [SubReceive(0, true), PubReceive(0), Drain];
    assert [SubReceive(0, true), PubReceive(0), Drain][1..] == [PubReceive(0), Drain];
    assert [PubReceive(0), Drain][1..] == [Drain] && [Drain][1..] == [];
  }

  /** A lost reply is never made up for: the handler takes the publisher for answered. */
  lemma LostStays(c: Config, s: System, step: Step, k: nat)
    requires c.Ok() && Inv(c, s) && Enabled(c, s, step) && k < |s.subs| && Lost(c, s, k)
    ensures Lost(c, Do(c, s, step), k)
  {
    match step
    case SubReceive(i, sent) =>
      assert Once(c, s, i);
      ReceiveOnce(c, s.subs[i], sent);
    case SubEvent(i, e, sent) => TakeOnce(c, s.subs[i], e, sent);
    case _ =>
  }

  lemma {:induction false} LostForEver(c: Config, s: System, steps: seq<Step>)
    requires c.Ok() && Inv(c, s) && From(c, s, steps).At?
    ensures var s' := From(c, s, steps).s; |s'.subs| == |c.ids| && NotLostIds(c, s') <= NotLostIds(c, s)
    decreases |steps|
  {
    if steps == [] {
    } else {
      var next := Do(c, s, steps[0]);
      StepInv(c, s, steps[0]);
      LostForEver(c, next, steps[1..]);
      forall k: nat | k < |s.subs| && Lost(c, s, k) ensures Lost(c, next, k) { LostStays(c, s, steps[0], k); }
    }
  }

  /** From then on `nsubs` cannot pass the number of the other subscribers, however long the
      publisher goes on. */
  lemma NeverMore(c: Config, s: System, steps: seq<Step>)
    requires c.Ok() && Inv(c, s) && From(c, s, steps).At?
    ensures From(c, s, steps).s.nsubs <= |NotLostIds(c, s)|
  {
    var s' := From(c, s, steps).s;
    RunInv(c, s, steps);
    LostForEver(c, s, steps);
    Drained(c, s');
    SubsetSize(SetOf(s'.drained), NotLostIds(c, s));
  }

  /** One subscriber whose reply is refused: `init_pub` waits for ever. */
  lemma WaitsForEver(c: Config, more: seq<Step>)
    requires c.Ok() && |c.ids| == 1
    requires From(c, Start(c), [PublishHello({0}), SubReceive(0, false)] + more).At?
    ensures From(c, Start(c), [PublishHello({0}), SubReceive(0, false)] + more).s.nsubs == 0
  {
    var steps := [PublishHello({0}), SubReceive(0, false)] + more;
    assert steps[1..] == [SubReceive(0, false)] + more && steps[1..][1..] == more;
    var s := RefusedOnce(c);
    NeverMore(c, s, more);
  }

  lemma RefusedOnce(c: Config) returns (s: System)
    requires c.Ok() && |c.ids| == 1
    ensures s == Do(c, Do(c, Start(c), PublishHello({0})), SubReceive(0, false))
    ensures Inv(c, s) && NotLostIds(c, s) == {}
  {
    var s0 := Start(c);
    assert Inv(c, s0);
    var s1 := Do(c, s0, PublishHello({0}));
    StepInv(c, s0, PublishHello({0}));
    assert s1.subs[0].inbox == [Tagged(c.gid, PubHello(c.id))] && s1.subs[0].handler == CommHandler.Init();
    s := Do(c, s1, SubReceive(0, false));
    StepInv(c, s1, SubReceive(0, false));
    HelloStep(CommHandler.Init(), c.gid, c.id);
    assert Lost(c, s, 0);
  }
}
