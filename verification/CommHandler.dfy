/**
 The event loop of comm_zmq/src/comm_handler.cpp.  Each socket is a sequence of messages and
 each branch of the poll loop is one event; a run is a sequence of events in any order.
 */
module CommHandler {
  import opened Words
  import opened Text

  // ---------------------------------------------------------------- ids

  /** IDE2I: shift left by four and set the lowest bit, in 32 bits. */
  function IdE2I(x: int): (r: int) { ToInt32(ToWord(16 * x + 1)) }

  /** IDI2E: arithmetic shift right by four. */
  function IdI2E(x: int): (r: int) { x / 16 }

  /** The id `recv` reports for a task with internal id `incid`. */
  function RecvId(incid: int): (r: int) { if incid >= 0 then IdI2E(incid) else incid }

  const ID_LIMIT := 0x800_0000

  predicate IsId(x: int) { -ID_LIMIT <= x < ID_LIMIT }

  /** Translation loses nothing exactly for ids of 28 bits. */
  lemma IdRoundTripIff(x: int)
    requires IsInt32(x)
    ensures IdI2E(IdE2I(x)) == x <==> IsId(x)
  {
  }

  /** `recv` reports the sender's id exactly if that id is not negative and has 27 bits. */
  lemma RecvIdIff(x: int)
    requires IsInt32(x)
    ensures RecvId(IdE2I(x)) == x <==> 0 <= x < ID_LIMIT
  {
  }

  /** An internal id is sixteen times the id, plus one; the id is its quotient by sixteen. */
  lemma IdsAre(x: int)
    requires IsId(x)
    ensures IdE2I(x) == 16 * x + 1
    ensures 16 * IdI2E(x) <= x < 16 * IdI2E(x) + 16
  {
  }

  lemma IdInjective(x: int, y: int)
    requires IsId(x) && IsId(y) && IdE2I(x) == IdE2I(y)
    ensures x == y
  {
    IdRoundTripIff(x);
    IdRoundTripIff(y);
  }

  // ---------------------------------------------------------------- the loop

  type Data = string

  /** A message with the id that precedes it. */
  datatype Tagged = Tagged(id: int, data: Data)

  /** The reply of a subscriber, with its NUL. */
  const SUB_REPLY := SUB_HELLO + "\0"

  const INIT_MSG := "comm_handler_hello\0"

  /** The reserved texts, written out. */
  lemma Reserved()
    ensures SUB_REPLY == "sub_hello\0" && INIT_MSG == "comm_handler_hello\0"
  {
  }

  /** One branch of the loop, taken with what is read from its socket; `behind` is the memory behind
      the buffer of a request.  `Broken` is any failing
      receive, connect, bind or subscription. */
  datatype Event =
    | OnMsgq(cid: int, data: Data)
    | OnRouter(cid: int, data: Data)
    | OnMonitor(known: bool)
    | OnConn(destid: int)
    | OnPubSend(gid: int, data: Data)
    | OnSubPull(text: string, behind: string)
    | OnSub(gid: int, data: Data)
    | OnPubStart(addr: string)
    | OnShutdown
    | Broken

  /** The maps of the handler, whether its thread has ended, and what it has sent where.
      `dialed` are the addresses connected to for subscriptions, `joined` the groups subscribed
      to. */
  datatype State = State(
    clientmap: map<int, bool>, publishermap: map<int, bool>, errcode: int, ended: bool,
    router: seq<Tagged>, taskq: seq<Tagged>, clientq: seq<int>, suberq: seq<Tagged>,
    pub: seq<Tagged>, dialed: seq<string>, joined: seq<int>)

  function Init(): (s: State) { State(map[], map[], 0, false, [], [], [], [], [], [], []) }

  function Failed(s: State): (r: State) { s.(errcode := 1, ended := true) }

  /** A first message announces its sender and is consumed. */
  function Announce(s: State, cid: int): (r: State) {
    s.(clientmap := s.clientmap[cid := true], clientq := s.clientq + [IdI2E(cid)])
  }

  /** A connection request marks the peer as known and greets it. */
  function Connect(s: State, destid: int): (r: State) {
    s.(clientmap := s.clientmap[destid := true], router := s.router + [Tagged(destid, INIT_MSG)])
  }

  /** An empty address means that the connection is there already. */
  function Dial(dialed: seq<string>, addr: string): (r: seq<string>) {
    if addr == [] then dialed else dialed + [addr]
  }

  /** The branch of the router socket. */
  function Route(s: State, cid: int, data: Data): (r: State) {
    if data == SUB_REPLY then s.(suberq := s.suberq + [Tagged(cid, data)])
    else if cid !in s.clientmap || s.clientmap[cid] == false then Announce(s, cid)
    else s.(taskq := s.taskq + [Tagged(cid, data)])
  }

  /** The branch of subscription requests.  If the loop over the ids never ends, neither does
      the branch. */
  function Subscribe(s: State, request: SubRequest): (r: State) {
    s.(dialed := Dial(s.dialed, request.addr), joined := s.joined + request.ids.ids,
       ended := request.ids.Spins?)
  }

  /** The branch of publications. */
  function Published(s: State, gid: int, data: Data): (r: State) {
    if IsPubHello(data) then Greeted(s, HelloId(data))
    else s.(taskq := s.taskq + [Tagged(IdE2I(gid), data)])
  }

  /** The first hello of a publisher is answered. */
  function Greeted(s: State, id: MaybeId): (r: State) {
    if id.NoId? || id.n in s.publishermap then s
    else s.(router := s.router + [Tagged(id.n, SUB_REPLY)], publishermap := s.publishermap[id.n := true])
  }

  function Step(s: State, e: Event): (r: State) {
    if s.ended then s
    else
      match e
      case OnMsgq(cid, data) => s.(router := s.router + [Tagged(cid, data)])
      case OnRouter(cid, data) => Route(s, cid, data)
      case OnMonitor(known) => if known then s else Failed(s)
      case OnConn(destid) => Connect(s, destid)
      case OnPubSend(gid, data) =>
        if gid < 0 then Failed(s) else s.(pub := s.pub + [Tagged(gid, data)])
      case OnSubPull(text, behind) => Subscribe(s, ReadSubText(text, behind))
      case OnSub(gid, data) => Published(s, gid, data)
      case OnPubStart(_) => s
      case OnShutdown => s.(ended := true)
      case Broken => Failed(s)
  }

  function Run(events: seq<Event>): (s: State) {
    if events == [] then Init() else Step(Run(events[..|events| - 1]), events[|events| - 1])
  }

  // ---------------------------------------------------------------- what a peer sees

  /** How the handler first got to know a peer: by connecting to it, or from a message. */
  datatype Contact = Unknown | Connected | Announced

  predicate IsPlain(e: Event, p: int) { e.OnRouter? && e.cid == p && e.data != SUB_REPLY }

  function ContactOf(events: seq<Event>, p: int): (c: Contact) {
    if events == [] then Unknown
    else
      var e := events[|events| - 1];
      var before := ContactOf(events[..|events| - 1], p);
      if before != Unknown then before
      else if e == OnConn(p) then Connected
      else if IsPlain(e, p) then Announced
      else Unknown
  }

  /** The router messages of p that are not subscriber hellos, in order. */
  function Plain(events: seq<Event>, p: int): (ds: seq<Data>) {
    if events == [] then []
    else
      var e := events[|events| - 1];
      Plain(events[..|events| - 1], p) + if IsPlain(e, p) then [e.data] else []
  }

  /** The data of the messages in a queue that carry id p. */
  function Of(ts: seq<Tagged>, p: int): (ds: seq<Data>) {
    if ts == [] then []
    else Of(ts[..|ts| - 1], p) + if ts[|ts| - 1].id == p then [ts[|ts| - 1].data] else []
  }

  function CountOf(xs: seq<int>, x: int): (n: nat) {
    if xs == [] then 0
    else CountOf(xs[..|xs| - 1], x) + if xs[|xs| - 1] == x then 1 else 0
  }

  /** Node ids are ids in range, and no group that a message comes from has the id of node x. */
  predicate Proper(e: Event, x: int) {
    && (e.OnRouter? ==> IsId(IdI2E(e.cid)) && e.cid == IdE2I(IdI2E(e.cid)))
    && (e.OnSub? ==> IsId(e.gid) && e.gid != x)
  }

  lemma OfAppend(ts: seq<Tagged>, t: Tagged, p: int)
    ensures Of(ts + [t], p) == Of(ts, p) + if t.id == p then [t.data] else []
  {
    assert (ts + [t])[..|ts|] == ts;
  }

  lemma CountAppend(xs: seq<int>, x: int, y: int)
    ensures CountOf(xs + [x], y) == CountOf(xs, y) + if x == y then 1 else 0
  {
    assert (xs + [x])[..|xs|] == xs;
  }

  /** The handler's books about node x agree with what happened. */
  ghost predicate Agrees(s: State, events: seq<Event>, x: int) {
    var p := IdE2I(x);
    && (forall k | k in s.clientmap :: s.clientmap[k])
    && (p in s.clientmap <==> ContactOf(events, p) != Unknown)
    && (ContactOf(events, p) != Unknown || Plain(events, p) == [])
    && CountOf(s.clientq, x) == (if ContactOf(events, p) == Announced then 1 else 0)
    && (ContactOf(events, p) == Announced ==> Plain(events, p) != [])
    && Of(s.taskq, p)
       == if ContactOf(events, p) == Announced && Plain(events, p) != [] then Plain(events, p)[1..] else Plain(events, p)
  }

  /** Any event but a plain router message of p or a connection to p is no contact with p. */
  lemma NoContact(events: seq<Event>, e: Event, p: int)
    requires !IsPlain(e, p) && e != OnConn(p)
    ensures ContactOf(events + [e], p) == ContactOf(events, p) && Plain(events + [e], p) == Plain(events, p)
  {
    assert (events + [e])[..|events|] == events;
  }

  lemma StrangerStep(s: State, e: Event)
    requires !s.ended && e.OnRouter? && e.data != SUB_REPLY && e.cid !in s.clientmap
    ensures Step(s, e) == Announce(s, e.cid)
  {
  }

  lemma PlainContact(events: seq<Event>, e: Event, p: int)
    requires IsPlain(e, p)
    ensures Plain(events + [e], p) == Plain(events, p) + [e.data]
    ensures ContactOf(events + [e], p)
            == if ContactOf(events, p) == Unknown then Announced else ContactOf(events, p)
  {
    assert (events + [e])[..|events|] == events;
  }

  /** A first message: the sender is announced and the message is consumed. */
  lemma StrangerAgrees(s: State, events: seq<Event>, e: Event, x: int)
    requires Agrees(s, events, x) && IsId(x) && !s.ended && Proper(e, x)
    requires e.OnRouter? && e.data != SUB_REPLY && e.cid !in s.clientmap
    ensures Agrees(Step(s, e), events + [e], x)
  {
    StrangerStep(s, e);
    IdRoundTripIff(x);
    if e.cid == IdE2I(x) {
      PlainContact(events, e, IdE2I(x));
      AnnounceThis(s, events, e, x);
    } else {
      NoContact(events, e, IdE2I(x));
      AnnounceOther(s, events, e, x);
    }
  }

  lemma AnnounceThis(s: State, events: seq<Event>, e: Event, x: int)
    requires Agrees(s, events, x) && e.OnRouter? && e.cid !in s.clientmap
    requires e.cid == IdE2I(x) && IdI2E(e.cid) == x
    requires Plain(events + [e], IdE2I(x)) == Plain(events, IdE2I(x)) + [e.data]
    requires ContactOf(events, IdE2I(x)) == Unknown ==> ContactOf(events + [e], IdE2I(x)) == Announced
    ensures Agrees(Announce(s, e.cid), events + [e], x)
  {
    CountAppend(s.clientq, x, x);
  }

  lemma AnnounceOther(s: State, events: seq<Event>, e: Event, x: int)
    requires Agrees(s, events, x) && e.OnRouter?
    requires e.cid != IdE2I(x) && IdI2E(e.cid) != x
    requires Plain(events + [e], IdE2I(x)) == Plain(events, IdE2I(x))
    requires ContactOf(events + [e], IdE2I(x)) == ContactOf(events, IdE2I(x))
    ensures Agrees(Announce(s, e.cid), events + [e], x)
  {
    CountAppend(s.clientq, IdI2E(e.cid), x);
  }

  /** A later message: it is queued as a task. */
  lemma KnownAgrees(s: State, events: seq<Event>, e: Event, x: int)
    requires Agrees(s, events, x) && !s.ended
    requires e.OnRouter? && e.data != SUB_REPLY && e.cid in s.clientmap
    ensures Agrees(Step(s, e), events + [e], x)
  {
    KnownStep(s, e);
    OfAppend(s.taskq, Tagged(e.cid, e.data), IdE2I(x));
    if e.cid == IdE2I(x) {
      PlainContact(events, e, IdE2I(x));
      QueueThis(s, events, e, x);
    } else {
      NoContact(events, e, IdE2I(x));
    }
  }

  lemma KnownStep(s: State, e: Event)
    requires !s.ended && e.OnRouter? && e.data != SUB_REPLY && e.cid in s.clientmap && s.clientmap[e.cid]
    ensures Step(s, e) == s.(taskq := s.taskq + [Tagged(e.cid, e.data)])
  {
  }

  lemma QueueThis(s: State, events: seq<Event>, e: Event, x: int)
    requires Agrees(s, events, x) && e.OnRouter? && e.cid in s.clientmap && e.cid == IdE2I(x)
    requires Plain(events + [e], IdE2I(x)) == Plain(events, IdE2I(x)) + [e.data]
    requires ContactOf(events + [e], IdE2I(x)) == ContactOf(events, IdE2I(x))
    ensures Agrees(s.(taskq := s.taskq + [Tagged(e.cid, e.data)]), events + [e], x)
  {
    OfAppend(s.taskq, Tagged(e.cid, e.data), IdE2I(x));
  }

  lemma RouterAgrees(s: State, events: seq<Event>, e: Event, x: int)
    requires Agrees(s, events, x) && IsId(x) && !s.ended && e.OnRouter? && Proper(e, x)
    ensures Agrees(Step(s, e), events + [e], x)
  {
    if e.data == SUB_REPLY {
      NoContact(events, e, IdE2I(x));
    } else if e.cid !in s.clientmap {
      StrangerAgrees(s, events, e, x);
    } else {
      KnownAgrees(s, events, e, x);
    }
  }

  lemma ConnContact(events: seq<Event>, destid: int, p: int)
    ensures var events' := events + [OnConn(destid)];
            Plain(events', p) == Plain(events, p)
            && ContactOf(events', p) == if ContactOf(events, p) == Unknown && destid == p then Connected
                                        else ContactOf(events, p)
  {
    assert (events + [OnConn(destid)])[..|events|] == events;
  }

  lemma ConnStep(s: State, destid: int)
    requires !s.ended
    ensures Step(s, OnConn(destid)) == Connect(s, destid)
  {
  }

  lemma ConnAgrees(s: State, events: seq<Event>, destid: int, x: int)
    requires Agrees(s, events, x) && !s.ended
    ensures Agrees(Step(s, OnConn(destid)), events + [OnConn(destid)], x)
  {
    ConnStep(s, destid);
    ConnContact(events, destid, IdE2I(x));
  }

  ghost predicate SameBooks(s: State, s': State) {
    s'.clientmap == s.clientmap && s'.clientq == s.clientq && s'.taskq == s.taskq
  }

  lemma Untouched(s: State, e: Event)
    requires !e.OnRouter? && !e.OnConn? && !e.OnSub?
    ensures SameBooks(s, Step(s, e))
  {
  }

  lemma SameAgrees(s: State, s': State, events: seq<Event>, e: Event, x: int)
    requires Agrees(s, events, x) && SameBooks(s, s') && !IsPlain(e, IdE2I(x)) && !e.OnConn?
    ensures Agrees(s', events + [e], x)
  {
    NoContact(events, e, IdE2I(x));
  }

  /** A task from elsewhere changes nothing for x. */
  lemma ForeignTask(s: State, t: Tagged, events: seq<Event>, x: int)
    requires Agrees(s, events, x) && t.id != IdE2I(x)
    ensures Agrees(s.(taskq := s.taskq + [t]), events, x)
  {
    OfAppend(s.taskq, t, IdE2I(x));
  }

  lemma SubStep(s: State, gid: int, data: Data)
    requires !s.ended
    ensures var s' := Step(s, OnSub(gid, data));
            if IsPubHello(data) then SameBooks(s, s')
            else s' == s.(taskq := s.taskq + [Tagged(IdE2I(gid), data)])
  {
  }

  lemma SubAgrees(s: State, events: seq<Event>, e: Event, x: int)
    requires Agrees(s, events, x) && IsId(x) && !s.ended && e.OnSub? && Proper(e, x)
    ensures Agrees(Step(s, e), events + [e], x)
  {
    SubStep(s, e.gid, e.data);
    if IsPubHello(e.data) {
      SameAgrees(s, Step(s, e), events, e, x);
    } else {
      if IdE2I(e.gid) == IdE2I(x) { IdInjective(e.gid, x); }
      SameAgrees(s, s, events, e, x);
      ForeignTask(s, Tagged(IdE2I(e.gid), e.data), events + [e], x);
    }
  }

  lemma OtherAgrees(s: State, events: seq<Event>, e: Event, x: int)
    requires Agrees(s, events, x) && !e.OnRouter? && !e.OnConn? && !e.OnSub?
    ensures Agrees(Step(s, e), events + [e], x)
  {
    Untouched(s, e);
    SameAgrees(s, Step(s, e), events, e, x);
  }

  lemma StepAgrees(s: State, events: seq<Event>, e: Event, x: int)
    requires Agrees(s, events, x) && IsId(x) && !s.ended && Proper(e, x)
    ensures Agrees(Step(s, e), events + [e], x)
  {
    if e.OnRouter? {
      RouterAgrees(s, events, e, x);
    } else if e.OnConn? {
      ConnAgrees(s, events, e.destid, x);
    } else if e.OnSub? {
      SubAgrees(s, events, e, x);
    } else {
      OtherAgrees(s, events, e, x);
    }
  }

  lemma EndedStays(s: State, e: Event)
    requires s.ended
    ensures Step(s, e) == s
  {
  }

  /** As long as the loop goes on. */
  ghost predicate Kept(s: State, events: seq<Event>, x: int) { s.ended || Agrees(s, events, x) }

  lemma StepKeeps(s: State, events: seq<Event>, e: Event, x: int)
    requires Kept(s, events, x) && IsId(x) && Proper(e, x)
    ensures Kept(Step(s, e), events + [e], x)
  {
    if !s.ended { StepAgrees(s, events, e, x); }
  }

  lemma {:induction false} RunKeeps(events: seq<Event>, x: int)
    requires IsId(x) && forall k | 0 <= k < |events| :: Proper(events[k], x)
    ensures Kept(Run(events), events, x)
  {
    if events == [] {
    } else {
      var n := |events| - 1;
      RunKeeps(events[..n], x);
      StepKeeps(Run(events[..n]), events[..n], events[n], x);
      assert events == events[..n] + [events[n]];
    }
  }

  lemma RunAgrees(events: seq<Event>, x: int)
    requires IsId(x) && !Run(events).ended && forall k | 0 <= k < |events| :: Proper(events[k], x)
    ensures Agrees(Run(events), events, x)
  {
    RunKeeps(events, x);
  }

  /** In every run, the tasks queued from node x are x's router messages in order, without
      subscriber hellos and without the first other message if x was unknown then; x is
      announced once if that message came, and never otherwise. */
  lemma TasksFromPeer(events: seq<Event>, x: int)
    requires IsId(x) && !Run(events).ended && forall k | 0 <= k < |events| :: Proper(events[k], x)
    ensures var s := Run(events); var p := IdE2I(x);
            && (ContactOf(events, p) == Announced ==>
                  Plain(events, p) != [] && Of(s.taskq, p) == Plain(events, p)[1..] && CountOf(s.clientq, x) == 1)
            && (ContactOf(events, p) != Announced ==>
                  Of(s.taskq, p) == Plain(events, p) && CountOf(s.clientq, x) == 0)
  {
    RunAgrees(events, x);
  }

  /** A hello of the publisher with internal id p. */
  predicate IsHello(data: Data, p: int) { IsPubHello(data) && HelloId(data) == Id(p) }

  predicate IsHelloOf(e: Event, p: int) { e.OnSub? && IsHello(e.data, p) }

  predicate HasHello(events: seq<Event>, p: int) {
    exists k | 0 <= k < |events| :: IsHelloOf(events[k], p)
  }

  /** What the handler owes peer p: the application's messages to p, a greeting for every
      connection made to p, and one reply, to the first hello of p. */
  function Owed(events: seq<Event>, p: int): (ds: seq<Data>) {
    if events == [] then []
    else
      var n := |events| - 1;
      var e := events[n];
      Owed(events[..n], p)
      + if e.OnMsgq? && e.cid == p then [e.data]
        else if e == OnConn(p) then [INIT_MSG]
        else if IsHelloOf(e, p) && !HasHello(events[..n], p) then [SUB_REPLY]
        else []
  }

  /** In every run, what is sent to p on the router socket is what is owed to it, in order. */
  lemma {:induction false} SentToPeer(events: seq<Event>, p: int)
    requires !Run(events).ended
    ensures Of(Run(events).router, p) == Owed(events, p)
    ensures p in Run(events).publishermap <==> HasHello(events, p)
  {
    if events == [] {
    } else {
      var n := |events| - 1;
      var s, e := Run(events[..n]), events[n];
      SentToPeer(events[..n], p);
      HasHelloStep(events, p);
      SentStep(s, e, p);
    }
  }

  lemma HasHelloStep(events: seq<Event>, p: int)
    requires events != []
    ensures HasHello(events, p) <==> HasHello(events[..|events| - 1], p) || IsHelloOf(events[|events| - 1], p)
  {
    var n := |events| - 1;
    var front := events[..n];
    if k :| 0 <= k < n && IsHelloOf(front[k], p) {
      assert events[k] == front[k];
    }
    if k :| 0 <= k < n && IsHelloOf(events[k], p) {
      assert front[k] == events[k];
    }
  }

  /** At most one message is sent per event. */
  function NewlySent(s: State, e: Event): (ts: seq<Tagged>)
    requires !s.ended
  {
    match e
    case OnMsgq(cid, data) => [Tagged(cid, data)]
    case OnConn(destid) => [Tagged(destid, INIT_MSG)]
    case OnSub(_, data) =>
      if IsPubHello(data) && HelloId(data).Id? && HelloId(data).n !in s.publishermap
      then [Tagged(HelloId(data).n, SUB_REPLY)] else []
    case _ => []
  }

  lemma RouterStep(s: State, e: Event)
    requires !s.ended
    ensures Step(s, e).router == s.router + NewlySent(s, e)
    ensures forall p :: p in Step(s, e).publishermap <==> p in s.publishermap || IsHelloOf(e, p)
  {
  }

  lemma SentStep(s: State, e: Event, p: int)
    requires !s.ended
    ensures var s' := Step(s, e);
            && Of(s'.router, p) == Of(s.router, p)
               + (if e.OnMsgq? && e.cid == p then [e.data]
                  else if e == OnConn(p) then [INIT_MSG]
                  else if IsHelloOf(e, p) && p !in s.publishermap then [SUB_REPLY]
                  else [])
            && (p in s'.publishermap <==> p in s.publishermap || IsHelloOf(e, p))
  {
    RouterStep(s, e);
    var ts := NewlySent(s, e);
    if ts == [] {
      assert s.router + ts == s.router;
    } else {
      assert ts == [ts[0]];
      OfAppend(s.router, ts[0], p);
    }
  }

  /** No run ever marks a known client as gone, so the branch for reconnected clients is never
      taken. */
  lemma {:induction false} NoReconnect(events: seq<Event>)
    ensures forall k | k in Run(events).clientmap :: Run(events).clientmap[k]
  {
    if events == [] {
    } else {
      var n := |events| - 1;
      NoReconnect(events[..n]);
      AllTrueStep(Run(events[..n]), events[n]);
    }
  }

  lemma AllTrueStep(s: State, e: Event)
    requires forall k | k in s.clientmap :: s.clientmap[k]
    ensures forall k | k in Step(s, e).clientmap :: Step(s, e).clientmap[k]
  {
  }

  /** The events on which the loop sets the error code and returns. */
  predicate IsFailure(e: Event) { e.Broken? || (e.OnMonitor? && !e.known) || (e.OnPubSend? && e.gid < 0) }

  predicate Failure(events: seq<Event>, k: nat)
    requires k < |events|
  {
    !Run(events[..k]).ended && IsFailure(events[k])
  }

  predicate HasFailure(events: seq<Event>) { exists k: nat :: k < |events| && Failure(events, k) }

  /** The error code is set exactly if the loop took a failing event, and then the loop has
      ended. */
  lemma {:induction false} ErrcodeIff(events: seq<Event>)
    ensures Run(events).errcode == 0 || Run(events).errcode == 1
    ensures Run(events).errcode == 1 <==> HasFailure(events)
    ensures Run(events).errcode == 1 ==> Run(events).ended
  {
    if events == [] {
    } else {
      var n := |events| - 1;
      ErrcodeIff(events[..n]);
      ErrcodeStep(Run(events[..n]), events[n]);
      FailureStep(events);
    }
  }

  lemma FailureStep(events: seq<Event>)
    requires events != []
    ensures var n := |events| - 1; HasFailure(events) <==> HasFailure(events[..n]) || Failure(events, n)
  {
    var n := |events| - 1;
    var front := events[..n];
    if k: nat :| k < n && Failure(front, k) {
      assert front[..k] == events[..k];
      assert Failure(events, k);
    }
    if k: nat :| k < n && Failure(events, k) {
      assert front[..k] == events[..k];
      assert Failure(front, k);
    }
  }

  lemma ErrcodeStep(s: State, e: Event)
    ensures Step(s, e).errcode == if !s.ended && IsFailure(e) then 1 else s.errcode
    ensures s.ended || IsFailure(e) ==> Step(s, e).ended
  {
  }

  /** Once the loop has ended nothing that arrives changes anything. */
  lemma {:induction false} EndIsFinal(events: seq<Event>, more: seq<Event>)
    requires Run(events).ended
    ensures Run(events + more) == Run(events)
  {
    var n := |more| - 1;
    if more == [] {
      assert events + more == events;
    } else {
      EndIsFinal(events, more[..n]);
      assert (events + more)[..|events| + n] == events + more[..n];
    }
  }

  // ---------------------------------------------------------------- all that the loop passes on

  /** The events after which the loop takes no more. */
  predicate Ends(e: Event) {
    IsFailure(e) || e.OnShutdown? || (e.OnSubPull? && ReadSubText(e.text, e.behind).ids.Spins?)
  }

  predicate HasEnd(events: seq<Event>) { exists k | 0 <= k < |events| :: Ends(events[k]) }

  /** The events up to the first that ends the loop. */
  function Taken(events: seq<Event>): (r: seq<Event>) {
    if events == [] then []
    else if HasEnd(events[..|events| - 1]) then Taken(events[..|events| - 1])
    else events
  }

  /** No event but the last ends the loop. */
  predicate AllTaken(events: seq<Event>) { events == [] || !HasEnd(events[..|events| - 1]) }

  lemma EndStep(s: State, e: Event)
    ensures Step(s, e).ended <==> s.ended || Ends(e)
  {
  }

  lemma HasEndStep(events: seq<Event>)
    requires events != []
    ensures var n := |events| - 1; HasEnd(events) <==> HasEnd(events[..n]) || Ends(events[n])
  {
    var n := |events| - 1;
    var front := events[..n];
    if k :| 0 <= k < n && Ends(front[k]) { assert events[k] == front[k]; }
    if k :| 0 <= k < n && Ends(events[k]) { assert front[k] == events[k]; }
  }

  /** The loop has ended exactly if some event ends it. */
  lemma {:induction false} EndedIff(events: seq<Event>)
    ensures Run(events).ended <==> HasEnd(events)
  {
    if events == [] {
    } else {
      var n := |events| - 1;
      EndedIff(events[..n]);
      HasEndStep(events);
      EndStep(Run(events[..n]), events[n]);
    }
  }

  /** A run is the run of the events that were taken. */
  lemma {:induction false} RunTaken(events: seq<Event>)
    ensures Run(events) == Run(Taken(events)) && AllTaken(Taken(events))
  {
    if events == [] {
    } else {
      var n := |events| - 1;
      if HasEnd(events[..n]) {
        RunTaken(events[..n]);
        EndedIff(events[..n]);
        EndedStays(Run(events[..n]), events[n]);
      }
    }
  }

  /** What `f` makes of every event and the events before it, one after another. */
  function Collect<T>(events: seq<Event>, f: (seq<Event>, Event) -> seq<T>): (r: seq<T>) {
    if events == [] then []
    else
      var n := |events| - 1;
      Collect(events[..n], f) + f(events[..n], events[n])
  }

  /** The state after a step, in terms of the state before and the event. */
  ghost predicate Passes(s: State, e: Event, s': State) {
    && s'.pub == s.pub + (if e.OnPubSend? && e.gid >= 0 then [Tagged(e.gid, e.data)] else [])
    && s'.suberq == s.suberq + (if e.OnRouter? && e.data == SUB_REPLY then [Tagged(e.cid, e.data)] else [])
    && s'.dialed == s.dialed + (if e.OnSubPull? then AddressOf(e) else [])
    && s'.joined == s.joined + (if e.OnSubPull? then ReadSubText(e.text, e.behind).ids.ids else [])
  }

  function AddressOf(e: Event): (addrs: seq<string>)
    requires e.OnSubPull?
  {
    var addr := ReadSubText(e.text, e.behind).addr;
    if addr == [] then [] else [addr]
  }

  lemma StepPasses(s: State, e: Event)
    requires !s.ended
    ensures Passes(s, e, Step(s, e))
  {
  }

  /** Over every run: the publications passed to the publish socket are those of the applications
      with a group that is not negative, the replies passed to `init_pub` are the subscribers'
      replies, and the addresses connected to and groups joined are those of the subscription
      requests, all in order, up to the end of the loop. */
  lemma {:induction false} PassedOn(events: seq<Event>)
    requires AllTaken(events)
    ensures Run(events).pub
            == Collect(events, (b, e: Event) => if e.OnPubSend? && e.gid >= 0 then [Tagged(e.gid, e.data)] else [])
    ensures Run(events).suberq
            == Collect(events, (b, e: Event) =>
                 if e.OnRouter? && e.data == SUB_REPLY then [Tagged(e.cid, e.data)] else [])
    ensures Run(events).dialed == Collect(events, (b, e: Event) => if e.OnSubPull? then AddressOf(e) else [])
    ensures Run(events).joined
            == Collect(events, (b, e: Event) => if e.OnSubPull? then ReadSubText(e.text, e.behind).ids.ids else [])
  {
    if events == [] {
    } else {
      var n := |events| - 1;
      StillTaken(events);
      PassedOn(events[..n]);
      EndedIff(events[..n]);
      StepPasses(Run(events[..n]), events[n]);
    }
  }

  lemma StillTaken(events: seq<Event>)
    requires events != [] && AllTaken(events)
    ensures AllTaken(events[..|events| - 1])
  {
    var front := events[..|events| - 1];
    if front != [] { HasEndStep(front); }
  }

  /** The handler knows exactly the peers it connected to or heard from. */
  lemma {:induction false} KnownIff(events: seq<Event>, p: int)
    requires !HasEnd(events)
    ensures p in Run(events).clientmap <==> ContactOf(events, p) != Unknown
  {
    if events == [] {
    } else {
      var n := |events| - 1;
      HasEndStep(events);
      KnownIff(events[..n], p);
      EndedIff(events[..n]);
      ContactStep(Run(events[..n]), events[n], p);
    }
  }

  lemma ContactStep(s: State, e: Event, p: int)
    requires !s.ended
    ensures p in Step(s, e).clientmap <==> p in s.clientmap || e == OnConn(p) || IsPlain(e, p)
  {
  }

  /** The tasks, announcements and messages that an event adds. */
  ghost predicate Queues(s: State, e: Event, s': State) {
    && s'.taskq == s.taskq
       + (if e.OnRouter? && e.data != SUB_REPLY && e.cid in s.clientmap then [Tagged(e.cid, e.data)]
          else if e.OnSub? && !IsPubHello(e.data) then [Tagged(IdE2I(e.gid), e.data)] else [])
    && s'.clientq == s.clientq
       + (if e.OnRouter? && e.data != SUB_REPLY && e.cid !in s.clientmap then [IdI2E(e.cid)] else [])
  }

  lemma StepQueues(s: State, e: Event)
    requires !s.ended && forall k | k in s.clientmap :: s.clientmap[k]
    ensures Queues(s, e, Step(s, e))
  {
  }

  /** Over every run: the tasks are, in order, the messages of peers already known that are no
      replies and the publications that are no hellos, each with its sender; and the announcements
      are the senders of messages from peers not yet known. */
  lemma {:induction false} TasksInOrder(events: seq<Event>)
    requires AllTaken(events)
    ensures Run(events).taskq
            == Collect(events, (b, e: Event) =>
                 if e.OnRouter? && e.data != SUB_REPLY && ContactOf(b, e.cid) != Unknown then [Tagged(e.cid, e.data)]
                 else if e.OnSub? && !IsPubHello(e.data) then [Tagged(IdE2I(e.gid), e.data)] else [])
    ensures Run(events).clientq
            == Collect(events, (b, e: Event) =>
                 if e.OnRouter? && e.data != SUB_REPLY && ContactOf(b, e.cid) == Unknown then [IdI2E(e.cid)] else [])
  {
    if events == [] {
    } else {
      var n := |events| - 1;
      StillTaken(events);
      TasksInOrder(events[..n]);
      EndedIff(events[..n]);
      NoReconnect(events[..n]);
      if events[n].OnRouter? { KnownIff(events[..n], events[n].cid); }
      StepQueues(Run(events[..n]), events[n]);
    }
  }

  /** Over every run: the messages passed to the router socket are, in order, those of the
      applications, a greeting for each connection, and a reply to the first hello of each
      publisher. */
  lemma {:induction false} SentInOrder(events: seq<Event>)
    requires AllTaken(events)
    ensures Run(events).router
            == Collect(events, (b, e: Event) =>
                 if e.OnMsgq? then [Tagged(e.cid, e.data)]
                 else if e.OnConn? then [Tagged(e.destid, INIT_MSG)]
                 else if e.OnSub? && IsPubHello(e.data) && HelloId(e.data).Id? && !HasHello(b, HelloId(e.data).n)
                 then [Tagged(HelloId(e.data).n, SUB_REPLY)]
                 else [])
  {
    if events == [] {
    } else {
      var n := |events| - 1;
      StillTaken(events);
      SentInOrder(events[..n]);
      EndedIff(events[..n]);
      if events[n].OnSub? && IsPubHello(events[n].data) && HelloId(events[n].data).Id? {
        SentToPeer(events[..n], HelloId(events[n].data).n);
      }
      RouterStep(Run(events[..n]), events[n]);
    }
  }

  // ---------------------------------------------------------------- in the source's form

  /** The handler's mutable state, one method per branch that does more than pass a message on. */
  class Handler {
    var clientmap: map<int, bool>
    var publishermap: map<int, bool>
    var errcode: int
    var ended: bool
    var router: seq<Tagged>
    var taskq: seq<Tagged>
    var clientq: seq<int>
    var suberq: seq<Tagged>
    var pub: seq<Tagged>
    var dialed: seq<string>
    var joined: seq<int>

    function View(): (s: State)
      reads this
    {
      State(clientmap, publishermap, errcode, ended, router, taskq, clientq, suberq, pub, dialed, joined)
    }

    constructor ()
      ensures View() == Init()
    {
      clientmap, publishermap, errcode, ended := map[], map[], 0, false;
      router, taskq, clientq, suberq, pub, dialed, joined := [], [], [], [], [], [], [];
    }

    method RouterBranch(cid: int, data: Data)
      requires !ended
      modifies this
      ensures View() == Step(old(View()), OnRouter(cid, data))
    {
      if data == SUB_REPLY {
        suberq := suberq + [Tagged(cid, data)];
      } else if cid !in clientmap {
        clientmap := clientmap[cid := true];
        clientq := clientq + [IdI2E(cid)];
      } else if clientmap[cid] == false {
        clientmap := clientmap[cid := true];
        clientq := clientq + [IdI2E(cid)];
      } else {
        taskq := taskq + [Tagged(cid, data)];
      }
    }

    method ConnBranch(destid: int)
      requires !ended
      modifies this
      ensures View() == Step(old(View()), OnConn(destid))
    {
      clientmap := clientmap[destid := true];
      router := router + [Tagged(destid, INIT_MSG)];
    }

    method SubPullBranch(text: string, behind: string)
      requires !ended
      modifies this
      ensures View() == Step(old(View()), OnSubPull(text, behind))
    {
      var addr, r := ReadRequest(text, behind);
      dialed := Dial(dialed, addr);
      joined := joined + r.ids;
      ended := r.Spins?;
    }

    method SubBranch(gid: int, data: Data)
      requires !ended
      modifies this
      ensures View() == Step(old(View()), OnSub(gid, data))
    {
      if IsPubHello(data) {
        var id := HelloId(data);
        if id.Id? && id.n !in publishermap {
          router := router + [Tagged(id.n, SUB_REPLY)];
          publishermap := publishermap[id.n := true];
        }
      } else {
        taskq := taskq + [Tagged(IdE2I(gid), data)];
      }
    }

    method Fail()
      requires !ended
      modifies this
      ensures View() == Failed(old(View()))
    {
      errcode, ended := 1, true;
    }

    /** The poll loop on a given sequence of readable sockets. */
    method Loop(events: seq<Event>)
      requires View() == Init()
      modifies this
      ensures View() == Run(events)
    {
      for i := 0 to |events|
        invariant View() == Run(events[..i])
      {
        assert events[..i + 1][..i] == events[..i];
        if !ended {
          match events[i] {
            case OnMsgq(cid, data) => router := router + [Tagged(cid, data)];
            case OnRouter(cid, data) => RouterBranch(cid, data);
            case OnMonitor(known) => if !known { Fail(); }
            case OnConn(destid) => ConnBranch(destid);
            case OnPubSend(gid, data) =>
              if gid < 0 { Fail(); } else { pub := pub + [Tagged(gid, data)]; }
            case OnSubPull(text, behind) => SubPullBranch(text, behind);
            case OnSub(gid, data) => SubBranch(gid, data);
            case OnPubStart(_) =>
            case OnShutdown => ended := true;
            case Broken => Fail();
          }
        }
      }
      assert events[..|events|] == events;
    }
  }
}
