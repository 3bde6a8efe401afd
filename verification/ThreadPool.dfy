/**
 The TCP thread pool of socket/src/threadpool.cpp and threadpool.hpp: connections placed round
 robin over writer threads, one message queue per thread, frames written in queue order.

 The caller's code, the writers and the readers interleave at every push, every pop, every
 write(2) and every close: wherever the caller's code stands between two actions or waits,
 `RunThreads` lets any of the threads take any number of steps.
 */
module ThreadPool {
  import opened Addressing
  import opened Framing
  import opened PoolThread
  import opened Words

  /** Only connections that exist were addressed one by one. */
  ghost predicate Known(calls: seq<Call>, n: nat) {
    forall i | 0 <= i < |calls| :: calls[i].ToOne? ==> calls[i].cliid < n
  }

  /** No byte has left a wire. */
  ghost predicate Grows(was: seq<seq<byte>>, now: seq<seq<byte>>) {
    |was| == |now| && forall i | 0 <= i < |was| :: was[i] <= now[i]
  }

  lemma GrowsThen(a: seq<seq<byte>>, b: seq<seq<byte>>, c: seq<seq<byte>>)
    requires Grows(a, b) && Grows(b, c)
    ensures Grows(a, c)
  {
  }

  function WireIn(xs: seq<Thr>, p: Place): (bytes: seq<byte>) {
    if p.thr < |xs| && p.slot < |xs[p.thr].wires| then xs[p.thr].wires[p.slot] else []
  }

  function FateIn(xs: seq<Thr>, p: Place): (fate: Fate) {
    if p.thr < |xs| && p.slot < |xs[p.thr].fates| then xs[p.thr].fates[p.slot] else Faulty
  }

  ghost predicate AllLater(was: seq<Thr>, now: seq<Thr>) {
    |was| == |now| && forall t: nat | t < |was| :: Later(was[t], now[t])
  }

  lemma AllLaterThen(a: seq<Thr>, b: seq<Thr>, c: seq<Thr>)
    requires AllLater(a, b) && AllLater(b, c)
    ensures AllLater(a, c)
  {
    forall t: nat | t < |a| ensures Later(a[t], c[t]) { LaterThen(a[t], b[t], c[t]); }
  }

  ghost predicate AllGrow(was: seq<Thr>, now: seq<Thr>) {
    |was| == |now| && forall t: nat | t < |was| :: Grows(was[t].wires, now[t].wires)
  }

  lemma AllGrowThen(a: seq<Thr>, b: seq<Thr>, c: seq<Thr>)
    requires AllGrow(a, b) && (AllGrow(b, c) || AllLater(b, c))
    ensures AllGrow(a, c)
  {
    forall t: nat | t < |a| ensures Grows(a[t].wires, c[t].wires) { GrowsThen(a[t].wires, b[t].wires, c[t].wires); }
  }

  function WithMsg(x: Thr, m: Msg): (y: Thr) { x.(msgq := x.msgq + [m]) }

  lemma MsgGrows(xs: seq<Thr>, t: nat, m: Msg)
    requires t < |xs|
    ensures AllGrow(xs, xs[t := WithMsg(xs[t], m)])
  {
  }

  lemma PipeGrows(xs: seq<Thr>, t: nat)
    requires t < |xs|
    ensures AllGrow(xs, xs[t := xs[t].(pipe := true)])
  {
  }

  lemma SamePipes(was: seq<Thr>, now: seq<Thr>)
    requires AllLater(was, now)
    ensures AllGrow(was, now)
    ensures forall t: nat | t < |was| :: now[t].pipe == was[t].pipe
  {
    forall t: nat | t < |was| ensures now[t].pipe == was[t].pipe && Grows(was[t].wires, now[t].wires) {
      assert Later(was[t], now[t]);
    }
  }

  class TcpThreadPool {
    const numThrs: nat
    const maxConns: nat
    /** `wthrinfo` */
    const thrs: seq<ThrInfo>
    var numConns: nat
    var running: bool
    /** The sockets passed to `add_conn` and where they went, the accepted calls in order, and how
        many of them have been given to each thread. */
    ghost var added: seq<int>
    ghost var at: seq<Place>
    ghost var calls: seq<Call>
    ghost var seen: seq<seq<Call>>

    ghost function Socks(): seq<seq<int>>
      reads this, thrs
    {
      seq(|thrs|, t requires 0 <= t < |thrs| reads thrs => thrs[t].socks)
    }

    ghost function Views(): seq<Thr>
      reads this, thrs
    {
      seq(|thrs|, t requires 0 <= t < |thrs| reads thrs => thrs[t].View())
    }

    ghost predicate Shape()
      reads this
    {
      && numThrs > 0 && |thrs| == |seen| == numThrs
      && (forall t: nat, u: nat | t < u < numThrs :: thrs[t] != thrs[u])
      && |at| == numConns <= maxConns && Known(calls, numConns)
      && (!running ==> calls == [])
    }

    ghost predicate Placed()
      reads this, thrs
    {
      && |thrs| == numThrs
      && RoundRobin(numThrs, at, Socks()) && Laid(at, Socks(), added)
    }

    /** What was pushed for thread t are its messages of the calls it has been given. */
    ghost predicate ThrValid(t: nat)
      requires Shape() && t < numThrs
      reads this, thrs[t]
    {
      && thrs[t].Valid() && thrs[t].maxSocks == Slots(maxConns, numThrs, t)
      && seen[t] <= calls && Pushed(thrs[t].View()) == Msgs(seen[t], numThrs, t)
      && (thrs[t].pipe ==> Stop in seen[t])
    }

    ghost predicate Valid()
      reads this, thrs
    {
      Shape() && Placed() && forall t: nat | t < numThrs :: ThrValid(t)
    }

    /** The caller's code is not in the middle of a call. */
    ghost predicate Settled()
      reads this
    {
      forall t: nat | t < |seen| :: seen[t] == calls
    }

    constructor (numThrs: nat, maxConns: nat)
      requires numThrs > 0
      ensures Valid() && Settled() && !running && numConns == 0 && calls == []
      ensures this.numThrs == numThrs && this.maxConns == maxConns
      ensures fresh(thrs)
    {
      var connPerThr, connRem := maxConns / numThrs, maxConns % numThrs;
      var caps := seq(numThrs, i requires 0 <= i => if i < connRem then connPerThr + 1 else connPerThr);
      assert forall t: nat | t < numThrs :: caps[t] == Slots(maxConns, numThrs, t);
      var infos := NewThrs(caps);
      this.numThrs, this.maxConns, thrs, numConns, running := numThrs, maxConns, infos, 0, false;
      added, at, calls, seen := [], [], [], seq(numThrs, _ => []);
      new;
      NoConns(numThrs, Socks());
      assert Ok(IDLE);
    }

    /** The loop of the constructor. */
    static method NewThrs(caps: seq<nat>) returns (infos: seq<ThrInfo>)
      ensures |infos| == |caps| && fresh(infos)
      ensures forall t: nat, u: nat | t < u < |caps| :: infos[t] != infos[u]
      ensures forall t: nat | t < |caps| :: infos[t].View() == IDLE && infos[t].maxSocks == caps[t]
    {
      infos := [];
      for i := 0 to |caps|
        invariant |infos| == i && fresh(infos)
        invariant forall t: nat, u: nat | t < u < i :: infos[t] != infos[u]
        invariant forall t: nat | t < i :: infos[t].View() == IDLE && infos[t].maxSocks == caps[t]
      {
        var info := new ThrInfo(caps[i]);
        infos := infos + [info];
      }
    }

    /** What is on the wire of connection c, and what has become of the connection. */
    ghost function WireOf(c: nat): seq<byte>
      reads this, thrs
    {
      if c < |at| then WireIn(Views(), at[c]) else []
    }

    ghost function FateOf(c: nat): Fate
      reads this, thrs
    {
      if c < |at| then FateIn(Views(), at[c]) else Faulty
    }

    /** The threads run: any of them may take any number of steps. */
    method RunThreads()
      requires Valid()
      modifies thrs
      ensures Valid() && Socks() == old(Socks())
      ensures forall t: nat | t < numThrs :: Reaches(old(thrs[t].View()), thrs[t].View())
      ensures AllLater(old(Views()), Views())
    {
      forall t: nat | t < numThrs ensures Ok(thrs[t].View()) { assert ThrValid(t); }
      forall t: nat | t < numThrs ensures Reaches(thrs[t].View(), thrs[t].View()) { ReachesSelf(thrs[t].View()); }
      var steps: int := *;
      while steps > 0
        invariant Valid() && Socks() == old(Socks())
        invariant forall t: nat | t < numThrs :: Reaches(old(thrs[t].View()), thrs[t].View())
      {
        var t: int := *;
        if 0 <= t < numThrs {
          ghost var was := thrs[t].View();
          assert Reaches(old(thrs[t].View()), was);
          var reader: bool := *;
          if reader && thrs[t].pipe && thrs[t].closed < |thrs[t].socks| {
            ReaderOf(t);
            ReachesNext(old(thrs[t].View()), was, Close);
          } else if !reader && thrs[t].CanStep() {
            ghost var step := WriterOf(t);
            ReachesNext(old(thrs[t].View()), was, step);
          }
        }
        steps := steps - 1;
      }
      forall t: nat | t < numThrs ensures Later(old(Views())[t], Views()[t]) {
        ReachesLater(old(thrs[t].View()), thrs[t].View());
      }
    }

    /** One step of writer t. */
    method WriterOf(t: nat) returns (ghost step: Step)
      requires Valid() && t < numThrs && thrs[t].CanStep()
      modifies thrs[t]
      ensures Valid() && Socks() == old(Socks())
      ensures step != Close && Ok(old(thrs[t].View()))
      ensures Enabled(old(thrs[t].View()), step) && thrs[t].View() == Do(old(thrs[t].View()), step)
      ensures Views() == old(Views())[t := Do(old(thrs[t].View()), step)]
    {
      ghost var socks, was := Socks(), thrs[t].View();
      assert ThrValid(t);
      step := thrs[t].StepWriter();
      StepLater(was, step);
      assert Socks() == socks;
      forall u: nat | u < numThrs ensures ThrValid(u) { assert old(ThrValid(u)); }
    }

    /** One step of reader t. */
    method ReaderOf(t: nat)
      requires Valid() && t < numThrs && thrs[t].pipe && thrs[t].closed < |thrs[t].socks|
      modifies thrs[t]
      ensures Valid() && Socks() == old(Socks())
      ensures Ok(old(thrs[t].View())) && Enabled(old(thrs[t].View()), Close)
      ensures thrs[t].View() == Do(old(thrs[t].View()), Close)
      ensures Views() == old(Views())[t := Do(old(thrs[t].View()), Close)]
    {
      ghost var socks, was := Socks(), thrs[t].View();
      assert ThrValid(t);
      thrs[t].StepReader();
      StepLater(was, Close);
      assert Socks() == socks;
      forall u: nat | u < numThrs ensures ThrValid(u) { assert old(ThrValid(u)); }
    }

    /** `add_conn`; as `Valid` says, the capacity that the constructor reserved for the thread is
        never exceeded. */
    method AddConn(sock: int) returns (r: int)
      requires Valid() && Settled()
      modifies this`numConns, this`added, this`at, thrs
      ensures Valid() && Settled()
      ensures r == if running || old(numConns) == maxConns then -1 else old(numConns)
      ensures r == -1 ==> added == old(added) && Socks() == old(Socks()) && numConns == old(numConns)
      ensures r != -1 ==> added == old(added) + [sock] && numConns == r + 1
      ensures r != -1 ==> at == old(at) + [Place(r % numThrs, r / numThrs)]
      ensures r != -1 ==> InRange(at[r], Socks()) && Socks()[at[r].thr][at[r].slot] == sock
    {
      if running || numConns == maxConns {
        return -1;
      }
      var t := numConns % numThrs;
      ghost var slot := NextPlace(t, sock);
      ghost var socks, places, all := Append(Socks(), t, sock), at + [Place(t, slot)], added + [sock];
      assert RoundRobin(numThrs, places, socks) && Laid(places, socks, all);
      Attach(t, sock);
      label attached:
      at, added, r := places, all, numConns;
      numConns := numConns + 1;
      assert Socks() == socks;
      assert Shape() && Placed();
      forall u: nat | u < numThrs ensures ThrValid(u) { assert old@attached(ThrValid(u)); }
      PlaceIs(r);
    }

    /** The socket is handed to its thread. */
    method Attach(t: nat, sock: int)
      requires Valid() && t < numThrs && |thrs[t].socks| < thrs[t].maxSocks && Pushed(thrs[t].View()) == []
      modifies thrs[t]
      ensures Socks() == Append(old(Socks()), t, sock)
      ensures forall u: nat | u < numThrs :: ThrValid(u)
    {
      assert ThrValid(t);
      thrs[t].AddSock(sock);
      forall u: nat | u < numThrs ensures ThrValid(u) { if u != t { assert old(ThrValid(u)); } }
    }

    /** Where the next connection will be. */
    lemma NextPlace(t: nat, sock: int) returns (slot: nat)
      requires Valid() && Settled() && !running && numConns < maxConns && t == numConns % numThrs
      ensures t < numThrs && slot == |thrs[t].socks| < thrs[t].maxSocks
      ensures thrs[t].Valid() && Pushed(thrs[t].View()) == []
      ensures Place(t, slot) == PlaceOf(numConns, numThrs)
      ensures RoundRobin(numThrs, at + [Place(t, slot)], Append(Socks(), t, sock))
      ensures Laid(at + [Place(t, slot)], Append(Socks(), t, sock), added + [sock])
    {
      assert ThrValid(t);
      slot := |Socks()[t]|;
      RoundRobinNext(numThrs, at, Socks(), sock);
      CapacityNext(numThrs, at, Socks(), maxConns);
      LaidNext(at, Socks(), added, t, sock);
    }

    /** `start_all` */
    method StartAll() returns (r: int)
      requires Valid() && Settled()
      modifies this`running
      ensures Valid() && Settled() && running
      ensures r == if old(running) then -1 else 0
    {
      if running {
        return -1;
      }
      running := true;
      forall t: nat | t < numThrs ensures ThrValid(t) { assert old(ThrValid(t)); }
      return 0;
    }

    /** The push for an accepted call to the queue of thread t. */
    method Give(t: nat, m: Msg, ghost call: Call)
      requires Valid() && t < numThrs && InSlots(m, |thrs[t].socks|)
      requires MsgFor(call, numThrs, t) == [m] && seen[t] + [call] <= calls
      modifies this`seen, thrs[t]
      ensures Valid() && Socks() == old(Socks())
      ensures seen == old(seen)[t := old(seen)[t] + [call]]
      ensures Views() == old(Views())[t := WithMsg(old(Views()[t]), m)]
    {
      assert ThrValid(t);
      ghost var socks := Socks();
      MsgsAppend(seen[t], call, numThrs, t);
      PushOk(thrs[t].View(), m);
      thrs[t].Push(m);
      assert Socks() == socks;
      seen := seen[t := seen[t] + [call]];
      forall u: nat | u < numThrs ensures ThrValid(u) { if u != t { assert old(ThrValid(u)); } }
    }

    /** A call is accepted; no thread has been given it. */
    ghost method Accept(call: Call)
      requires Valid() && running && (call.ToOne? ==> call.cliid < numConns)
      modifies this`calls
      ensures Valid() && calls == old(calls) + [call]
    {
      calls := calls + [call];
      forall t: nat | t < numThrs ensures ThrValid(t) { assert old(ThrValid(t)); }
    }

    /** The other threads have nothing to do for a call. */
    ghost method Settle(t: nat, call: Call)
      requires Valid() && t < numThrs && seen[t] == calls
      requires forall u: nat | u < numThrs && u != t :: seen[u] + [call] == calls && MsgFor(call, numThrs, u) == []
      modifies this`seen
      ensures Valid() && Settled()
    {
      forall u: nat | u < numThrs ensures Msgs(calls, numThrs, u) == Msgs(seen[u], numThrs, u) {
        if u != t { MsgsAppend(seen[u], call, numThrs, u); }
      }
      var all := calls;
      seen := seq(numThrs, _ => all);
      forall u: nat | u < numThrs ensures ThrValid(u) { assert old(ThrValid(u)); }
    }

    /** `send` */
    method Send(cliid: nat, payload: Payload) returns (r: int)
      requires Valid() && Settled()
      modifies this`calls, this`seen, thrs
      ensures Valid() && Settled() && Socks() == old(Socks())
      ensures r == if !running then -1 else if cliid >= numConns then -2 else 0
      ensures calls == if r == 0 then old(calls) + [ToOne(cliid, payload)] else old(calls)
      ensures r == 0 ==> forall c: nat ::
                Payloads(calls, numThrs, c) == Payloads(old(calls), numThrs, c) + if c == cliid then [payload] else []
    {
      if !running {
        return -1;
      }
      if cliid >= numConns {
        return -2;
      }
      var thrid, sockidx := cliid % numThrs, cliid / numThrs;
      assert at[cliid] == PlaceOf(cliid, numThrs) && InRange(at[cliid], Socks());
      PayloadsAppend(calls, ToOne(cliid, payload), numThrs);
      Accept(ToOne(cliid, payload));
      RunThreads();
      Give(thrid, WriteMsg(payload, sockidx), ToOne(cliid, payload));
      Settle(thrid, ToOne(cliid, payload));
      return 0;
    }

    /** `thr_broadcast` */
    method ThrBroadcast(thrid: nat, payload: Payload) returns (r: int)
      requires Valid() && Settled()
      modifies this`calls, this`seen, thrs
      ensures Valid() && Settled() && Socks() == old(Socks())
      ensures r == if !running then -1 else if thrid >= numThrs then -2 else 0
      ensures calls == if r == 0 then old(calls) + [ToThread(thrid, payload)] else old(calls)
      ensures r == 0 ==> forall c: nat ::
                Payloads(calls, numThrs, c)
                == Payloads(old(calls), numThrs, c) + if c % numThrs == thrid then [payload] else []
    {
      if !running {
        return -1;
      }
      if thrid >= numThrs {
        return -2;
      }
      PayloadsAppend(calls, ToThread(thrid, payload), numThrs);
      Accept(ToThread(thrid, payload));
      RunThreads();
      Give(thrid, WriteMsg(payload, -1), ToThread(thrid, payload));
      Settle(thrid, ToThread(thrid, payload));
      return 0;
    }

    /** The loop of `broadcast` over the queues.  The threads go on between the pushes. */
    method PushAll(m: Msg, ghost call: Call)
      requires Valid() && Settled() && running && !call.ToOne? && InSlots(m, 0)
      requires forall t: nat | t < numThrs :: MsgFor(call, numThrs, t) == [m]
      modifies this`calls, this`seen, thrs
      ensures Valid() && Settled() && Socks() == old(Socks()) && calls == old(calls) + [call]
    {
      ghost var before := calls;
      Accept(call);
      for i := 0 to numThrs
        invariant Valid() && Socks() == old(Socks()) && calls == before + [call]
        invariant forall t: nat | t < numThrs :: seen[t] == if t < i then calls else before
      {
        RunThreads();
        Give(i, m, call);
      }
    }

    /** `broadcast` */
    method Broadcast(payload: Payload) returns (r: int)
      requires Valid() && Settled()
      modifies this`calls, this`seen, thrs
      ensures Valid() && Settled() && Socks() == old(Socks())
      ensures r == if !running then -1 else 0
      ensures calls == if r == 0 then old(calls) + [ToAll(payload)] else old(calls)
      ensures r == 0 ==> forall c: nat :: Payloads(calls, numThrs, c) == Payloads(old(calls), numThrs, c) + [payload]
    {
      if !running {
        return -1;
      }
      PayloadsAppend(calls, ToAll(payload), numThrs);
      PushAll(WriteMsg(payload, -1), ToAll(payload));
      return 0;
    }

    lemma PlaceIs(c: nat)
      requires Valid() && c < numConns
      ensures at[c] == PlaceOf(c, numThrs) && InRange(at[c], Socks()) && at[c].thr < numThrs
      ensures |added| == numConns && Socks()[at[c].thr][at[c].slot] == added[c]
    {
    }

    /** The first loop of `stop_all`: every queue gets an EXIT, and every reader's pipe is closed. */
    method TellAll()
      requires Valid() && Settled() && running
      modifies this`calls, this`seen, thrs
      ensures Valid() && Settled() && Socks() == old(Socks()) && calls == old(calls) + [Stop]
      ensures AllGrow(old(Views()), Views()) && forall t: nat | t < numThrs :: thrs[t].pipe
    {
      ghost var before := calls;
      Accept(Stop);
      for i := 0 to numThrs
        invariant Valid() && Socks() == old(Socks()) && calls == before + [Stop]
        invariant forall t: nat | t < numThrs :: seen[t] == if t < i then calls else before
        invariant AllGrow(old(Views()), Views()) && forall t: nat | t < i :: thrs[t].pipe
      {
        ghost var was := Views();
        Tell(i);
        AllGrowThen(old(Views()), was, Views());
      }
    }

    /** One turn of that loop. */
    method Tell(t: nat)
      requires Valid() && t < numThrs && seen[t] + [Stop] == calls
      modifies this`seen, thrs
      ensures Valid() && Socks() == old(Socks()) && seen == old(seen)[t := calls]
      ensures AllGrow(old(Views()), Views()) && thrs[t].pipe
      ensures forall u: nat | u < numThrs && old(thrs[u].pipe) :: thrs[u].pipe
    {
      PushExit(t);
      ghost var a := Views();
      HangupSoon(t);
      AllGrowThen(old(Views()), a, Views());
      forall u: nat | u < numThrs && old(thrs[u].pipe) ensures thrs[u].pipe {
        assert old(Views()[u]).pipe && a[u].pipe && Views()[u].pipe;
      }
    }

    method PushExit(t: nat)
      requires Valid() && t < numThrs && seen[t] + [Stop] == calls
      modifies this`seen, thrs
      ensures Valid() && Socks() == old(Socks()) && seen == old(seen)[t := calls]
      ensures AllGrow(old(Views()), Views())
      ensures forall u: nat | u < numThrs :: Views()[u].pipe == old(Views()[u].pipe)
    {
      RunThreads();
      ghost var a := Views();
      SamePipes(old(Views()), a);
      Give(t, ExitMsg, Stop);
      MsgGrows(a, t, ExitMsg);
      AllGrowThen(old(Views()), a, Views());
    }

    method HangupSoon(t: nat)
      requires Valid() && t < numThrs && Stop in seen[t]
      modifies thrs
      ensures Valid() && Socks() == old(Socks())
      ensures AllGrow(old(Views()), Views()) && thrs[t].pipe
      ensures forall u: nat | u < numThrs && old(Views()[u].pipe) :: Views()[u].pipe
    {
      RunThreads();
      ghost var a := Views();
      SamePipes(old(Views()), a);
      Hangup(t);
      PipeGrows(a, t);
      AllGrowThen(old(Views()), a, Views());
    }

    /** The caller closes the pipe of reader t. */
    method Hangup(t: nat)
      requires Valid() && t < numThrs && Stop in seen[t]
      modifies thrs[t]
      ensures Valid() && Socks() == old(Socks())
      ensures Views() == old(Views())[t := old(Views()[t]).(pipe := true)]
    {
      ghost var socks := Socks();
      assert ThrValid(t);
      PipeOk(thrs[t].View());
      thrs[t].ClosePipe();
      assert Socks() == socks;
      forall u: nat | u < numThrs ensures ThrValid(u) { assert old(ThrValid(u)); }
    }

    /** A writer is waited for until it has exited; the other threads go on. */
    method JoinWriter(t: nat)
      requires Valid() && Settled() && t < numThrs && Stop in calls
      modifies thrs
      ensures Valid() && Settled() && Socks() == old(Socks()) && thrs[t].exited
      ensures AllLater(old(Views()), Views())
    {
      NothingYetDone();
      while !thrs[t].exited
        invariant Valid() && Settled() && Socks() == old(Socks())
        invariant AllLater(old(Views()), Views())
        decreases |thrs[t].msgq|, SlotsLeft(thrs[t].hand), BytesLeft(thrs[t].hand)
      {
        ExitPending(t);
        ghost var a := Views();
        WriterThenAll(t);
        AllLaterThen(old(Views()), a, Views());
      }
    }

    /** One step of writer t, then any steps of any threads. */
    method WriterThenAll(t: nat)
      requires Valid() && t < numThrs && thrs[t].CanStep()
      modifies thrs
      ensures Valid() && Socks() == old(Socks()) && AllLater(old(Views()), Views())
      ensures Less(thrs[t].View(), old(thrs[t].View()))
    {
      NothingYetDone();
      ghost var a := Views();
      ghost var step := WriterOf(t);
      ghost var b := Views();
      OneLater(a, t, step);
      RunThreads();
      AllLaterThen(a, b, Views());
      assert Later(b[t], Views()[t]);
    }

    /** One step of reader t, then any steps of any threads. */
    method ReaderThenAll(t: nat)
      requires Valid() && t < numThrs && thrs[t].pipe && thrs[t].closed < |thrs[t].socks|
      modifies thrs
      ensures Valid() && Socks() == old(Socks()) && AllLater(old(Views()), Views())
      ensures old(thrs[t].closed) < thrs[t].closed <= |thrs[t].socks| && thrs[t].pipe && thrs[t].socks == old(thrs[t].socks)
    {
      NothingYetDone();
      ghost var a := Views();
      ReaderOf(t);
      ghost var b := Views();
      OneLater(a, t, Close);
      RunThreads();
      AllLaterThen(a, b, Views());
      assert Later(b[t], Views()[t]);
      NothingYetDone();
    }

    /** A reader is waited for until it has closed its sockets and exited. */
    method JoinReader(t: nat)
      requires Valid() && Settled() && t < numThrs && thrs[t].pipe
      modifies thrs
      ensures Valid() && Settled() && Socks() == old(Socks()) && thrs[t].closed == |thrs[t].socks|
      ensures AllLater(old(Views()), Views())
    {
      NothingYetDone();
      while thrs[t].closed < |thrs[t].socks|
        invariant Valid() && Settled() && Socks() == old(Socks()) && thrs[t].pipe
        invariant thrs[t].closed <= |thrs[t].socks|
        invariant AllLater(old(Views()), Views())
        decreases |thrs[t].socks| - thrs[t].closed
      {
        ghost var a := Views();
        ReaderThenAll(t);
        AllLaterThen(old(Views()), a, Views());
      }
    }

    /** The second loop of `stop_all`. */
    method JoinAll()
      requires Valid() && Settled() && Stop in calls && AllTold(Views())
      modifies thrs
      ensures Valid() && Settled() && Socks() == old(Socks()) && AllLater(old(Views()), Views())
      ensures AllGone(Views(), numThrs)
    {
      NothingYetDone();
      for i := 0 to numThrs
        invariant Valid() && Settled() && Socks() == old(Socks()) && AllLater(old(Views()), Views())
        invariant AllTold(Views()) && AllGone(Views(), i)
      {
        ghost var a := Views();
        JoinBoth(i);
        ghost var b := Views();
        AllLaterThen(old(Views()), a, b);
        StillTold(a, b);
        OneMoreGone(a, b, i);
      }
    }

    method JoinBoth(t: nat)
      requires Valid() && Settled() && Stop in calls && t < numThrs && AllTold(Views())
      modifies thrs
      ensures Valid() && Settled() && Socks() == old(Socks()) && AllLater(old(Views()), Views())
      ensures Gone(Views()[t])
    {
      assert Views()[t].pipe;
      JoinWriter(t);
      ghost var b := Views();
      assert Later(old(Views())[t], b[t]);
      JoinReader(t);
      AllLaterThen(old(Views()), b, Views());
      assert Later(b[t], Views()[t]);
    }

    lemma NothingYetDone()
      requires Valid()
      ensures AllLater(Views(), Views())
      ensures forall t: nat | t < numThrs :: Ok(Views()[t]) && thrs[t].closed <= |thrs[t].socks|
    {
      forall t: nat | t < numThrs ensures Ok(Views()[t]) && Views()[t] == thrs[t].View() { assert ThrValid(t); }
    }

    /** A writer that was told to exit and has not is able to go on. */
    lemma ExitPending(t: nat)
      requires Valid() && Settled() && t < numThrs && Stop in calls && !thrs[t].exited
      ensures thrs[t].CanStep()
    {
      assert ThrValid(t);
      ExitIn(calls, numThrs, t);
      assert ExitMsg in Pushed(thrs[t].View());
    }

    lemma WireAt(c: nat)
      requires Valid() && c < numConns
      ensures var p := at[c];
              && p == PlaceOf(c, numThrs) && p.thr < numThrs && Ok(thrs[p.thr].View()) && p.slot < |thrs[p.thr].socks|
              && WireOf(c) == thrs[p.thr].wires[p.slot] && FateOf(c) == thrs[p.thr].fates[p.slot]
    {
      PlaceIs(c);
      assert ThrValid(at[c].thr);
    }

    /** The bytes on a wire are still there. */
    lemma WireGrew(was: seq<Thr>, c: nat)
      requires Valid() && c < numConns && AllGrow(was, Views())
      ensures WireIn(was, at[c]) <= WireOf(c)
    {
      WireAt(c);
      assert Grows(was[at[c].thr].wires, Views()[at[c].thr].wires);
    }

    /** What a connection has been sent at any moment, in the middle of calls too: the beginning of
        what is addressed to it, unless a write failed for another reason than its reader's close. */
    lemma OnTheWay(c: nat)
      requires Valid() && c < numConns
      ensures var due := SentAll(Payloads(calls, numThrs, c));
              && |WireOf(c)| <= |due|
              && (FateOf(c) != Faulty ==> WireOf(c) <= due)
              && (FateOf(c) != Intact ==> |WireOf(c)| < |due|)
    {
      WireAt(c);
      WireIs(thrs[at[c].thr].View(), at[c].slot);
      DueSoFar(c, at[c]);
    }

    lemma DueSoFar(c: nat, p: Place)
      requires Valid() && p == PlaceOf(c, numThrs) && p.thr < numThrs
      ensures Due(Pushed(thrs[p.thr].View()), p.slot) <= SentAll(Payloads(calls, numThrs, c))
    {
      assert ThrValid(p.thr);
      SlotIs(seen[p.thr], numThrs, c, p.thr, p.slot);
      PayloadsPrefix(seen[p.thr], calls, numThrs, c);
      SentPrefix(Payloads(seen[p.thr], numThrs, c), Payloads(calls, numThrs, c));
    }

    /** What a connection has been sent in the end. */
    lemma Complete(c: nat, before: seq<Call>)
      requires Valid() && Settled() && c < numConns
      requires forall t: nat | t < numThrs :: thrs[t].exited
      requires calls == before + [Stop] && Stop !in before
      ensures Ended(WireOf(c), FateOf(c), SentAll(Payloads(calls, numThrs, c)))
    {
      WireAt(c);
      Finished(at[c].thr, before);
      WireEnds(thrs[at[c].thr].View(), at[c].slot);
      DueIs(c, at[c]);
      OnTheWay(c);
    }

    lemma DueIs(c: nat, p: Place)
      requires Valid() && Settled() && p == PlaceOf(c, numThrs) && p.thr < numThrs
      ensures Due(Pushed(thrs[p.thr].View()), p.slot) == SentAll(Payloads(calls, numThrs, c))
    {
      assert ThrValid(p.thr);
      SlotIs(calls, numThrs, c, p.thr, p.slot);
    }

    /** A writer that has exited has finished every message it was given. */
    lemma Finished(t: nat, before: seq<Call>)
      requires Valid() && Settled() && t < numThrs && thrs[t].exited
      requires calls == before + [Stop] && Stop !in before
      ensures thrs[t].msgq == [] && thrs[t].hand.Free? && thrs[t].done == Msgs(calls, numThrs, t)
    {
      assert ThrValid(t);
      NoExit(before, numThrs, t);
      MsgsAppend(before, Stop, numThrs, t);
      assert thrs[t].done + thrs[t].msgq == Pushed(thrs[t].View());
      LastExit(thrs[t].done, thrs[t].msgq, Msgs(before, numThrs, t));
    }

    lemma AllComplete(before: seq<Call>)
      requires Valid() && Settled() && calls == before + [Stop] && Stop !in before
      requires AllGone(Views(), numThrs)
      ensures forall t: nat | t < numThrs :: thrs[t].exited && thrs[t].closed == |thrs[t].socks|
      ensures forall c: nat | c < numConns :: Ended(WireOf(c), FateOf(c), SentAll(Payloads(calls, numThrs, c)))
    {
      assert forall t: nat | t < numThrs :: Gone(Views()[t]) && Views()[t] == thrs[t].View();
      forall c: nat | c < numConns
        ensures Ended(WireOf(c), FateOf(c), SentAll(Payloads(calls, numThrs, c)))
      {
        Complete(c, before);
      }
    }

    /** A connection that had everything on its wire has lost nothing. */
    lemma AllKept(was: seq<Thr>, before: seq<Call>)
      requires Valid() && AllGrow(was, Views()) && calls == before + [Stop]
      ensures forall c: nat | c < numConns && WireIn(was, at[c]) == SentAll(Payloads(before, numThrs, c)) ::
                FateOf(c) == Intact
    {
      forall c: nat | c < numConns && WireIn(was, at[c]) == SentAll(Payloads(before, numThrs, c))
        ensures FateOf(c) == Intact
      {
        WireGrew(was, c);
        OnTheWay(c);
        StopAdds(before, numThrs, c);
      }
    }

    /** From the calls on one side to the callbacks on the other: after `stop_all` the peer of
        connection c is delivered the payloads addressed to c, whole and in call order, if and only
        if no write to c failed and each of the payloads has 1 to 2^31-1 bytes. */
    lemma EndToEnd(c: nat, before: seq<Call>)
      requires Valid() && Settled() && c < numConns
      requires forall t: nat | t < numThrs :: thrs[t].exited
      requires calls == before + [Stop] && Stop !in before
      ensures var ps := Payloads(calls, numThrs, c);
              Deliver(WireOf(c)) == Delivery(ps, AtClose) <==> FateOf(c) == Intact && AllFit(ps)
    {
      Complete(c, before);
      Received(WireOf(c), FateOf(c), Payloads(calls, numThrs, c));
    }

    /** `stop_all`, all threads running meanwhile.  Then a connection has been sent exactly what was
        addressed to it if and only if no write to it failed, and one whose writes failed only
        because its reader was quicker has been sent the beginning of that.  A connection that had
        everything on its wire beforehand is among the former. */
    method StopAll() returns (r: int)
      requires Valid() && Settled() && Stop !in calls
      modifies this`calls, this`seen, thrs
      ensures Valid() && Settled() && Socks() == old(Socks())
      ensures r == if running then 0 else -1
      ensures calls == if r == 0 then old(calls) + [Stop] else old(calls)
      ensures r == 0 ==> forall t: nat | t < numThrs :: thrs[t].exited && thrs[t].closed == |thrs[t].socks|
      ensures r == 0 ==> forall c: nat | c < numConns ::
                Ended(WireOf(c), FateOf(c), SentAll(Payloads(calls, numThrs, c)))
      ensures r == 0 ==> forall c: nat | c < numConns && old(WireOf(c)) == SentAll(Payloads(old(calls), numThrs, c)) ::
                FateOf(c) == Intact
    {
      if !running {
        return -1;
      }
      ghost var before, was := calls, Views();
      TellAll();
      ghost var told := Views();
      assert AllTold(told) by { assert forall t: nat | t < numThrs :: told[t].pipe == thrs[t].pipe; }
      JoinAll();
      AllGrowThen(was, told, Views());
      AllComplete(before);
      AllKept(was, before);
      return 0;
    }
  }

  /** Both threads have ended. */
  predicate Gone(x: Thr) { x.exited && x.closed == |x.socks| }

  lemma GoneStays(x: Thr, y: Thr)
    requires Gone(x) && Later(x, y)
    ensures Gone(y)
  {
  }

  predicate AllTold(xs: seq<Thr>) { forall t: nat | t < |xs| :: xs[t].pipe }

  predicate AllGone(xs: seq<Thr>, n: nat) { n <= |xs| && forall t: nat | t < n :: Gone(xs[t]) }

  lemma OneMoreGone(was: seq<Thr>, now: seq<Thr>, n: nat)
    requires AllLater(was, now) && AllGone(was, n) && n < |now| && Gone(now[n])
    ensures AllGone(now, n + 1)
  {
    forall t: nat | t < n + 1 ensures Gone(now[t]) {
      if t < n { GoneStays(was[t], now[t]); }
    }
  }

  lemma StillTold(was: seq<Thr>, now: seq<Thr>)
    requires AllLater(was, now) && AllTold(was)
    ensures AllTold(now)
  {
    SamePipes(was, now);
  }

  lemma StopAdds(calls: seq<Call>, k: nat, c: nat)
    requires k > 0
    ensures Payloads(calls + [Stop], k, c) == Payloads(calls, k, c)
  {
    assert (calls + [Stop])[..|calls|] == calls;
  }

  /** A wire after the end of its writer, against the bytes addressed to it. */
  predicate Ended(wire: seq<byte>, fate: Fate, due: seq<byte>) {
    && (wire == due <==> fate == Intact)
    && (fate != Intact ==> |wire| < |due|)
    && (fate == Cut ==> wire <= due)
  }

  lemma OneLater(xs: seq<Thr>, t: nat, step: Step)
    requires t < |xs| && (forall u: nat | u < |xs| :: Ok(xs[u]))
    requires Ok(xs[t])
    requires Enabled(xs[t], step)
    ensures var ys := xs[t := Do(xs[t], step)]; AllLater(xs, ys) && (step != Close ==> Less(ys[t], xs[t]))
  {
    StepLater(xs[t], step);
  }

  // ---------------------------------------------------------------- end to end

  /** What the peer of a connection is delivered after the end of the writer. */
  lemma Received(wire: seq<byte>, fate: Fate, ps: seq<Payload>)
    requires Ended(wire, fate, SentAll(ps))
    ensures Deliver(wire) == Delivery(ps, AtClose) <==> fate == Intact && AllFit(ps)
  {
    if !AllFit(ps) {
      DeliveredFit(wire);
    } else {
      Short(ps);
      SentFrames(ps);
      if fate == Intact {
        RoundTripIff(ps);
      } else {
        ShortWire(wire, ps);
      }
    }
  }

  lemma ShortWire(wire: seq<byte>, ps: seq<seq<byte>>)
    requires Sized(ps) && |wire| < |Frames(ps)|
    ensures Deliver(wire) != Delivery(ps, AtClose)
  {
    DeliveredLength(wire);
  }

  lemma Short(ps: seq<Payload>)
    requires AllFit(ps)
    ensures forall i | 0 <= i < |ps| :: |ps[i]| + 4 < WORD
  {
    forall i | 0 <= i < |ps| ensures |ps[i]| + 4 < WORD { assert Fits(ps[i]); }
  }

  /** If only the reader's close made writes fail, the peer is delivered the payloads whose frames
      are whole on the wire, and k says where the wire was cut. */
  lemma ReceivedCut(wire: seq<byte>, ps: seq<Payload>) returns (k: nat)
    requires Ended(wire, Cut, SentAll(ps)) && AllFit(ps)
    ensures Sized(ps) && k < |Frames(ps)| && wire == Frames(ps)[..k]
    ensures Deliver(wire) == Delivery(ps[..Whole(ps, k)], EndAt(Surplus(ps, k))) && Whole(ps, k) < |ps|
  {
    Short(ps);
    SentFrames(ps);
    k := |wire|;
    var whole := ps[..Whole(ps, k)];
    assert AllFit(whole) by { forall i | 0 <= i < |whole| ensures Fits(whole[i]) { assert Fits(ps[i]); } }
    FitSendable(whole);
    DeliverCut(ps, k);
    NonEmptyIfFit(whole);
    CutIs(ps, k);
    assert ps[..|ps|] == ps;
  }

  lemma FitSendable(ps: seq<seq<byte>>)
    requires AllFit(ps)
    ensures Sendable(ps)
  {
    forall i | 0 <= i < |ps| ensures |ps[i]| < INT_LIMIT { assert Fits(ps[i]); }
  }
}
