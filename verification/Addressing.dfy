/**
 Which connection of the thread pool of socket/src/threadpool.cpp lives where, and which bytes
 the calls of the sending side mean for it.
 */
module Addressing {
  import opened Division
  import opened Framing
  import opened Words

  /** A queued message: EXIT, or WRITE to one slot of the thread or, if negative, to all. */
  datatype Msg = ExitMsg | WriteMsg(payload: Payload, sock: int)

  /** An accepted call of the sending side. */
  datatype Call =
    | ToOne(cliid: nat, payload: Payload)
    | ToThread(thrid: nat, payload: Payload)
    | ToAll(payload: Payload)
    | Stop

  // ---------------------------------------------------------------- placement

  /** How many of n connections, dealt round robin to k threads, thread t has. */
  function Slots(n: nat, k: nat, t: nat): (r: nat)
    requires k > 0
  {
    n / k + if t < n % k then 1 else 0
  }

  /** The next connection goes to thread n % k and to that thread's next free slot. */
  lemma SlotsStep(n: nat, k: nat, t: nat)
    requires k > 0 && t < k
    ensures Slots(n + 1, k, t) == Slots(n, k, t) + (if t == n % k then 1 else 0)
    ensures Slots(n, k, n % k) == n / k
  {
    var q, r := n / k, n % k;
    if r + 1 < k {
      DivMod(n + 1, k, q, r + 1);
    } else {
      assert (q + 1) * k == q * k + k;
      DivMod(n + 1, k, q + 1, 0);
    }
  }

  lemma {:induction false} SlotsMonotone(n: nat, m: nat, k: nat, t: nat)
    requires k > 0 && t < k && n <= m
    ensures Slots(n, k, t) <= Slots(m, k, t)
    decreases m - n
  {
    if n == m {
    } else {
      SlotsStep(n, k, t);
      SlotsMonotone(n + 1, m, k, t);
    }
  }

  /** What the first t threads have together. */
  function SlotsBelow(n: nat, k: nat, t: nat): (r: nat)
    requires k > 0
  {
    if t == 0 then 0 else SlotsBelow(n, k, t - 1) + Slots(n, k, t - 1)
  }

  lemma {:induction false} SlotsBelowStep(n: nat, k: nat, t: nat)
    requires k > 0 && t <= k
    ensures SlotsBelow(n + 1, k, t) == SlotsBelow(n, k, t) + (if n % k < t then 1 else 0)
  {
    if t == 0 {
    } else {
      SlotsBelowStep(n, k, t - 1);
      SlotsStep(n, k, t - 1);
    }
  }

  lemma {:induction false} NoSlots(k: nat, t: nat)
    requires k > 0
    ensures SlotsBelow(0, k, t) == 0
  {
    DivMod(0, k, 0, 0);
    if t == 0 {
    } else {
      NoSlots(k, t - 1);
    }
  }

  /** The capacities of the threads add up to `max_conns`. */
  lemma {:induction false} CapacitySplit(n: nat, k: nat)
    requires k > 0
    ensures SlotsBelow(n, k, k) == n
  {
    if n == 0 {
      NoSlots(k, k);
    } else {
      CapacitySplit(n - 1, k);
      SlotsBelowStep(n - 1, k, k);
    }
  }

  /** Where a connection lives. */
  datatype Place = Place(thr: nat, slot: nat)

  function PlaceOf(c: nat, k: nat): (p: Place)
    requires k > 0
  {
    Place(c % k, c / k)
  }

  /** The connections of k threads are dealt round robin: the places, and the number of
      connections of each thread, are a function of how many there are. */
  ghost predicate RoundRobin(k: nat, at: seq<Place>, socks: seq<seq<int>>) {
    && k > 0 && |socks| == k
    && (forall c: nat | c < |at| :: at[c] == PlaceOf(c, k))
    && (forall t: nat | t < k :: |socks[t]| == Slots(|at|, k, t))
  }

  /** The places are slots of their threads, one connection each, and hold the right socket. */
  ghost predicate Laid(at: seq<Place>, socks: seq<seq<int>>, added: seq<int>) {
    && |at| == |added|
    && (forall c: nat | c < |at| :: InRange(at[c], socks) && socks[at[c].thr][at[c].slot] == added[c])
    && (forall c: nat, d: nat | c < d < |at| :: at[c] != at[d])
  }

  predicate InRange<T>(p: Place, xs: seq<seq<T>>) { p.thr < |xs| && p.slot < |xs[p.thr]| }

  function Append<T>(xs: seq<seq<T>>, t: nat, x: T): (r: seq<seq<T>>)
    requires t < |xs|
  {
    xs[t := xs[t] + [x]]
  }

  lemma RoundRobinNext(k: nat, at: seq<Place>, socks: seq<seq<int>>, sock: int)
    requires RoundRobin(k, at, socks)
    ensures var t := |at| % k;
            && RoundRobin(k, at + [Place(t, |socks[t]|)], Append(socks, t, sock))
            && Place(t, |socks[t]|) == PlaceOf(|at|, k)
  {
    var n := |at|;
    SlotsStep(n, k, n % k);
    forall u: nat | u < k
      ensures Slots(n + 1, k, u) == Slots(n, k, u) + (if u == n % k then 1 else 0)
    {
      SlotsStep(n, k, u);
    }
  }

  /** As long as not all connections are there, the next thread has room. */
  lemma CapacityNext(k: nat, at: seq<Place>, socks: seq<seq<int>>, max: nat)
    requires RoundRobin(k, at, socks) && |at| < max
    ensures var t := |at| % k; |socks[t]| < Slots(max, k, t)
  {
    SlotsStep(|at|, k, |at| % k);
    SlotsMonotone(|at| + 1, max, k, |at| % k);
  }

  lemma LaidNext(at: seq<Place>, socks: seq<seq<int>>, added: seq<int>, t: nat, sock: int)
    requires Laid(at, socks, added) && t < |socks|
    ensures Laid(at + [Place(t, |socks[t]|)], Append(socks, t, sock), added + [sock])
  {
  }

  // ---------------------------------------------------------------- who gets what

  /** What a call sends to connection c. */
  function PayloadFor(call: Call, k: nat, c: nat): (ps: seq<Payload>)
    requires k > 0
  {
    match call
    case ToOne(cliid, p) => if cliid == c then [p] else []
    case ToThread(thrid, p) => if thrid == c % k then [p] else []
    case ToAll(p) => [p]
    case Stop => []
  }

  /** The payloads addressed to connection c, in call order. */
  function Payloads(calls: seq<Call>, k: nat, c: nat): (ps: seq<Payload>)
    requires k > 0
  {
    if calls == [] then []
    else
      var n := |calls| - 1;
      Payloads(calls[..n], k, c) + PayloadFor(calls[n], k, c)
  }

  lemma PayloadsAppend(calls: seq<Call>, call: Call, k: nat)
    requires k > 0
    ensures forall c: nat :: Payloads(calls + [call], k, c) == Payloads(calls, k, c) + PayloadFor(call, k, c)
  {
    assert (calls + [call])[..|calls|] == calls;
  }

  /** What a call puts into the queue of thread t. */
  function MsgFor(call: Call, k: nat, t: nat): (ms: seq<Msg>)
    requires k > 0
  {
    match call
    case ToOne(cliid, p) => if cliid % k == t then [WriteMsg(p, cliid / k)] else []
    case ToThread(thrid, p) => if thrid == t then [WriteMsg(p, -1)] else []
    case ToAll(p) => [WriteMsg(p, -1)]
    case Stop => [ExitMsg]
  }

  /** The messages of calls for thread t, in call order. */
  function Msgs(calls: seq<Call>, k: nat, t: nat): (ms: seq<Msg>)
    requires k > 0
  {
    if calls == [] then []
    else
      var n := |calls| - 1;
      Msgs(calls[..n], k, t) + MsgFor(calls[n], k, t)
  }

  lemma MsgsAppend(calls: seq<Call>, call: Call, k: nat, t: nat)
    requires k > 0
    ensures Msgs(calls + [call], k, t) == Msgs(calls, k, t) + MsgFor(call, k, t)
  {
    assert (calls + [call])[..|calls|] == calls;
  }

  predicate IsFor(m: Msg, slot: nat) { m.WriteMsg? && (m.sock < 0 || m.sock == slot) }

  /** What messages send to one slot of their thread. */
  function SlotPayloads(ms: seq<Msg>, slot: nat): (ps: seq<Payload>) {
    if ms == [] then []
    else
      var n := |ms| - 1;
      SlotPayloads(ms[..n], slot) + if IsFor(ms[n], slot) then [ms[n].payload] else []
  }

  lemma SlotAppend(ms: seq<Msg>, m: Msg, slot: nat)
    ensures SlotPayloads(ms + [m], slot) == SlotPayloads(ms, slot) + if IsFor(m, slot) then [m.payload] else []
  {
    assert (ms + [m])[..|ms|] == ms;
  }

  /** The messages of a thread, seen from the slot of connection c, are the payloads addressed to
      c. */
  lemma {:induction false} SlotIs(calls: seq<Call>, k: nat, c: nat, t: nat, slot: nat)
    requires k > 0 && t == c % k && slot == c / k
    ensures SlotPayloads(Msgs(calls, k, t), slot) == Payloads(calls, k, c)
  {
    if calls == [] {
    } else {
      var n := |calls| - 1;
      SlotIs(calls[..n], k, c, t, slot);
      OneSlot(calls[n], k, c);
      SlotExtend(Msgs(calls[..n], k, t), MsgFor(calls[n], k, t), PayloadFor(calls[n], k, c), slot);
    }
  }

  /** The new messages, at most one, send the new payloads to the slot. */
  predicate Sends(more: seq<Msg>, ps: seq<Payload>, slot: nat) {
    if more == [] then ps == [] else more == [more[0]] && ps == if IsFor(more[0], slot) then [more[0].payload] else []
  }

  lemma SlotExtend(ms: seq<Msg>, more: seq<Msg>, ps: seq<Payload>, slot: nat)
    requires Sends(more, ps, slot)
    ensures SlotPayloads(ms + more, slot) == SlotPayloads(ms, slot) + ps
  {
    if more == [] {
      assert ms + more == ms;
    } else {
      SlotAppend(ms, more[0], slot);
    }
  }

  /** A call reaches connection c exactly by its message to the slot of c. */
  lemma OneSlot(call: Call, k: nat, c: nat)
    requires k > 0
    ensures Sends(MsgFor(call, k, c % k), PayloadFor(call, k, c), c / k)
  {
    if call.ToOne? && call.cliid % k == c % k && call.cliid / k == c / k {
      SlotUnique(call.cliid, c, k);
    }
  }

  /** A slot of a thread belongs to one connection. */
  lemma SlotUnique(c: nat, d: nat, k: nat)
    requires k > 0 && c / k == d / k && c % k == d % k
    ensures c == d
  {
    assert c == (c / k) * k + c % k && d == (d / k) * k + d % k;
  }

  /** The bytes writers send for a list of payloads. */
  function SentAll(ps: seq<Payload>): (bytes: seq<byte>) {
    if ps == [] then []
    else
      var n := |ps| - 1;
      SentAll(ps[..n]) + Sent(ps[n])
  }

  lemma SentAppend(ps: seq<Payload>, p: Payload)
    ensures SentAll(ps + [p]) == SentAll(ps) + Sent(p)
  {
    assert (ps + [p])[..|ps|] == ps;
  }

  /** The bytes messages put on the wire of one slot of their thread. */
  function Due(ms: seq<Msg>, slot: nat): (bytes: seq<byte>) { SentAll(SlotPayloads(ms, slot)) }

  lemma DueAppend(ms: seq<Msg>, m: Msg, slot: nat)
    ensures Due(ms + [m], slot) == Due(ms, slot) + if IsFor(m, slot) then Sent(m.payload) else []
  {
    SlotAppend(ms, m, slot);
    var ps := SlotPayloads(ms, slot);
    if IsFor(m, slot) {
      SentAppend(ps, m.payload);
    } else {
      assert ps + [] == ps && SentAll(ps) + [] == SentAll(ps);
    }
  }

  lemma {:induction false} ExitIn(calls: seq<Call>, k: nat, t: nat)
    requires k > 0 && Stop in calls
    ensures ExitMsg in Msgs(calls, k, t)
  {
    var n := |calls| - 1;
    if calls[n] == Stop {
    } else {
      ExitIn(calls[..n], k, t);
    }
  }

  lemma {:induction false} NoExit(calls: seq<Call>, k: nat, t: nat)
    requires k > 0 && Stop !in calls
    ensures ExitMsg !in Msgs(calls, k, t)
  {
    if calls == [] {
    } else {
      var n := |calls| - 1;
      assert calls[n] in calls && MsgFor(calls[n], k, t) != [ExitMsg];
      NoExit(calls[..n], k, t);
    }
  }

  lemma LastExit(done: seq<Msg>, rest: seq<Msg>, ms: seq<Msg>)
    requires done + rest == ms + [ExitMsg] && ExitMsg !in ms && ExitMsg in done
    ensures rest == []
  {
    var i :| 0 <= i < |done| && done[i] == ExitMsg;
    assert (ms + [ExitMsg])[i] == ExitMsg;
    assert i >= |ms|;
  }

  lemma {:induction false} SlotPrefix(a: seq<Msg>, b: seq<Msg>, slot: nat)
    requires a <= b
    ensures SlotPayloads(a, slot) <= SlotPayloads(b, slot)
    decreases |b|
  {
    if |a| == |b| {
      assert a == b;
    } else {
      SlotPrefix(a, b[..|b| - 1], slot);
    }
  }

  lemma {:induction false} PayloadsPrefix(a: seq<Call>, b: seq<Call>, k: nat, c: nat)
    requires k > 0 && a <= b
    ensures Payloads(a, k, c) <= Payloads(b, k, c)
    decreases |b|
  {
    if |a| == |b| {
      assert a == b;
    } else {
      PayloadsPrefix(a, b[..|b| - 1], k, c);
    }
  }

  lemma {:induction false} SentPrefix(ps: seq<Payload>, qs: seq<Payload>)
    requires ps <= qs
    ensures SentAll(ps) <= SentAll(qs)
    decreases |qs|
  {
    if |ps| == |qs| {
      assert ps == qs;
    } else {
      SentPrefix(ps, qs[..|qs| - 1]);
    }
  }

  lemma DuePrefix(a: seq<Msg>, b: seq<Msg>, slot: nat)
    requires a <= b
    ensures Due(a, slot) <= Due(b, slot)
  {
    SlotPrefix(a, b, slot);
    SentPrefix(SlotPayloads(a, slot), SlotPayloads(b, slot));
  }

  /** As long as no frame is longer than a dsize_t can say, the bytes are the frames. */
  lemma {:induction false} SentFrames(ps: seq<Payload>)
    requires forall i | 0 <= i < |ps| :: |ps[i]| + 4 < WORD
    ensures SentAll(ps) == Frames(ps)
  {
    if ps == [] {
    } else {
      var n := |ps| - 1;
      SentFrames(ps[..n]);
      FramesAppend(ps[..n], ps[n]);
      SentIsFrameIff(ps[n]);
      assert ps == ps[..n] + [ps[n]];
    }
  }

  lemma NoConns(k: nat, socks: seq<seq<int>>)
    requires k > 0 && |socks| == k && forall t: nat | t < k :: socks[t] == []
    ensures RoundRobin(k, [], socks) && Laid([], socks, [])
  {
    DivMod(0, k, 0, 0);
  }
}
