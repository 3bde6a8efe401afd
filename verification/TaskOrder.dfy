/**
 In which order packets travel through the channels and queues of the MPI task protocol, and what
 its counts say of the packets themselves.
 */
module TaskOrder {
  import opened Packets
  import opened TaskProtocol

  /** The two channels between the server and a client, and the two queues of that client. */
  datatype Line = DownLine | S2wLine | W2sLine | UpLine

  function On(mach: Machine, line: Line): (ps: seq<Packet>) {
    match line
    case DownLine => mach.down
    case S2wLine => mach.s2w
    case W2sLine => mach.w2s
    case UpLine => mach.up
  }

  // ---------------------------------------------------------------- first in, first out

  /** What a step puts on a line of machine m, seen from the hand that puts it there. */
  function Entering(c: Config, s: State, step: Step, m: nat, line: Line): (ps: seq<Packet>)
    requires Enabled(c, s, step)
  {
    match line
    case DownLine => if step.Send? && s.server.i == m then [Task(c, m, s.outmsg)] else []
    case S2wLine => if step == Local(m, ClientPut) then [s.machines[m].client.pkt] else []
    case W2sLine =>
      if step.Local? && step.m == m && step.l.WorkerPut? then [s.machines[m].workers[step.l.w].pkt] else []
    case UpLine =>
      if step == Local(m, SendHeartbeat) then [Heartbeat(c, m)]
      else if step == Local(m, ClientSend) then [ReplyTo(c, m, s.machines[m].client.pkt)]
      else []
  }

  /** What a step takes off a line of machine m, seen in the hand that has it afterwards. */
  function Leaving(c: Config, s: State, step: Step, m: nat, line: Line): (ps: seq<Packet>)
    requires Enabled(c, s, step)
  {
    var s' := Do(c, s, step);
    match line
    case DownLine =>
      if step == Local(m, ClientRecv) && s'.machines[m].client.HoldNew? then [s'.machines[m].client.pkt] else []
    case S2wLine =>
      if step.Local? && step.m == m && step.l.WorkerGet? && s'.machines[m].workers[step.l.w].Got?
      then [s'.machines[m].workers[step.l.w].pkt] else []
    case W2sLine =>
      if step == Local(m, ClientPop) && s'.machines[m].client.HoldDone? then [s'.machines[m].client.pkt] else []
    case UpLine =>
      if step == Hear(m) && s'.heard != [] then [s'.heard[|s'.heard| - 1]]
      else if step == Receive(m) && s'.round != [] then [s'.round[|s'.round| - 1]]
      else []
  }

  lemma StepFifo(c: Config, s: State, step: Step, m: nat, line: Line)
    requires Enabled(c, s, step) && m < |s.machines|
    ensures On(s.machines[m], line) + Entering(c, s, step, m, line)
            == Leaving(c, s, step, m, line) + On(Do(c, s, step).machines[m], line)
  {
    if !step.Local? {
      ServerFifo(c, s, step, m, line);
    } else if step.m == m {
      LocalFifo(c, s, step, m, line);
    } else {
      assert On(s.machines[m], line) + [] == [] + On(s.machines[m], line);
    }
  }

  lemma LocalFifo(c: Config, s: State, step: Step, m: nat, line: Line)
    requires Enabled(c, s, step) && m < |s.machines| && step.Local? && step.m == m
    ensures On(s.machines[m], line) + Entering(c, s, step, m, line)
            == Leaving(c, s, step, m, line) + On(Do(c, s, step).machines[m], line)
  {
    match line
    case DownLine =>
    case S2wLine =>
    case W2sLine =>
    case UpLine =>
  }

  lemma ServerFifo(c: Config, s: State, step: Step, m: nat, line: Line)
    requires Enabled(c, s, step) && m < |s.machines| && !step.Local?
    ensures On(s.machines[m], line) + Entering(c, s, step, m, line)
            == Leaving(c, s, step, m, line) + On(Do(c, s, step).machines[m], line)
  {
    match line
    case DownLine =>
    case S2wLine =>
    case W2sLine =>
    case UpLine =>
  }

  function AllEntering(c: Config, s: State, steps: seq<Step>, m: nat, line: Line): (ps: seq<Packet>)
    requires From(c, s, steps).At?
    decreases |steps|
  {
    if steps == [] then []
    else Entering(c, s, steps[0], m, line) + AllEntering(c, Do(c, s, steps[0]), steps[1..], m, line)
  }

  function AllLeaving(c: Config, s: State, steps: seq<Step>, m: nat, line: Line): (ps: seq<Packet>)
    requires From(c, s, steps).At?
    decreases |steps|
  {
    if steps == [] then []
    else Leaving(c, s, steps[0], m, line) + AllLeaving(c, Do(c, s, steps[0]), steps[1..], m, line)
  }

  lemma Rearranged(a: seq<Packet>, b: seq<Packet>, c: seq<Packet>, d: seq<Packet>, e: seq<Packet>, f: seq<Packet>, g: seq<Packet>)
    requires a + b == c + d && d + e == f + g
    ensures a + (b + e) == (c + f) + g
  {
    assert a + (b + e) == (a + b) + e == c + (d + e);
  }

  lemma SameMachines(c: Config, s: State, step: Step)
    requires Enabled(c, s, step)
    ensures |Do(c, s, step).machines| == |s.machines|
  {
  }

  /** In every run, what was on a line and what was put on it is what was taken off it, followed by
      what is still there, in that order: every channel and every queue is first in, first out. */
  lemma {:induction false} FirstInFirstOut(c: Config, s: State, steps: seq<Step>, m: nat, line: Line)
    requires From(c, s, steps).At? && m < |s.machines|
    ensures |From(c, s, steps).s.machines| == |s.machines|
    ensures On(s.machines[m], line) + AllEntering(c, s, steps, m, line)
            == AllLeaving(c, s, steps, m, line) + On(From(c, s, steps).s.machines[m], line)
    decreases |steps|
  {
    if steps == [] {
    } else {
      var next := Do(c, s, steps[0]);
      SameMachines(c, s, steps[0]);
      StepFifo(c, s, steps[0], m, line);
      FirstInFirstOut(c, next, steps[1..], m, line);
      Rearranged(On(s.machines[m], line), Entering(c, s, steps[0], m, line), Leaving(c, s, steps[0], m, line),
                 On(next.machines[m], line), AllEntering(c, next, steps[1..], m, line),
                 AllLeaving(c, next, steps[1..], m, line), On(From(c, s, steps).s.machines[m], line));
    }
  }

  // ---------------------------------------------------------------- the order of the tasks

  /** The tasks on their way to the workers of a machine, the oldest first. */
  function Coming(mach: Machine): (ps: seq<Packet>) {
    mach.s2w + (if mach.client.HoldNew? then [mach.client.pkt] else []) + mach.down
  }

  ghost predicate Rising(ps: seq<Packet>, bound: int) {
    && (forall i, j | 0 <= i < j < |ps| :: ps[i].msg.seqno < ps[j].msg.seqno)
    && (forall i | 0 <= i < |ps| :: ps[i].msg.seqno < bound)
  }

  ghost predicate AllRising(s: State) {
    forall m | 0 <= m < |s.machines| :: Rising(Coming(s.machines[m]), s.outmsg)
  }

  lemma LocalComing(c: Config, m: nat, mach: Machine, l: LocalStep)
    requires LocalEnabled(mach, l)
    ensures var r := LocalDo(c, m, mach, l);
            if l.WorkerGet? then mach.s2w != [] && Coming(r) == Coming(mach)[1..] else Coming(r) == Coming(mach)
  {
  }

  lemma StepRising(c: Config, s: State, step: Step)
    requires AllRising(s) && Enabled(c, s, step)
    ensures AllRising(Do(c, s, step))
  {
    SameMachines(c, s, step);
    forall m | 0 <= m < |s.machines| ensures Rising(Coming(Do(c, s, step).machines[m]), Do(c, s, step).outmsg) {
      StepComing(c, s, step, m);
    }
  }

  lemma StepComing(c: Config, s: State, step: Step, m: nat)
    requires Enabled(c, s, step) && m < |s.machines| && Rising(Coming(s.machines[m]), s.outmsg)
    ensures var s' := Do(c, s, step); |s'.machines| == |s.machines| && Rising(Coming(s'.machines[m]), s'.outmsg)
  {
    var s' := Do(c, s, step);
    if step.Local? && step.m == m {
      LocalComing(c, m, s.machines[m], step.l);
    } else if step.Send? && s.server.i == m {
      SendComing(c, m, s.machines[m], s.outmsg);
    } else {
      assert Coming(s'.machines[m]) == Coming(s.machines[m]);
    }
  }

  lemma SendComing(c: Config, m: nat, mach: Machine, q: nat)
    requires Rising(Coming(mach), q)
    ensures Rising(Coming(mach.(down := mach.down + [Task(c, m, q)])), q + 1)
  {
    assert Coming(mach.(down := mach.down + [Task(c, m, q)])) == Coming(mach) + [Task(c, m, q)];
  }

  lemma {:induction false} RunRising(c: Config, s: State, steps: seq<Step>)
    requires AllRising(s) && From(c, s, steps).At?
    ensures AllRising(From(c, s, steps).s)
    decreases |steps|
  {
    if steps == [] {
    } else {
      StepRising(c, s, steps[0]);
      RunRising(c, Do(c, s, steps[0]), steps[1..]);
    }
  }

  /** In every reachable state the sequence numbers rise along `s2w`, from there to the task in the
      client's hand, and from there along the channel: tasks reach the workers in the order in
      which they were sent. */
  lemma TasksInOrder(c: Config, s: State, m: nat)
    requires Reachable(c, s) && m < |s.machines|
    ensures var mach := s.machines[m];
            && (forall i, j | 0 <= i < j < |mach.s2w| :: mach.s2w[i].msg.seqno < mach.s2w[j].msg.seqno)
            && (forall i, j | 0 <= i < j < |mach.down| :: mach.down[i].msg.seqno < mach.down[j].msg.seqno)
            && (forall i, j | 0 <= i < |mach.s2w| && 0 <= j < |mach.down| ::
                  mach.s2w[i].msg.seqno < mach.down[j].msg.seqno)
            && (mach.client.HoldNew? ==>
                  && (forall i | 0 <= i < |mach.s2w| :: mach.s2w[i].msg.seqno < mach.client.pkt.msg.seqno)
                  && (forall j | 0 <= j < |mach.down| :: mach.client.pkt.msg.seqno < mach.down[j].msg.seqno))
  {
    ReachableRising(c, s);
    var mach := s.machines[m];
    assert Rising(Coming(mach), s.outmsg);
    var hand := if mach.client.HoldNew? then [mach.client.pkt] else [];
    Parts(mach.s2w, hand, mach.down, s.outmsg);
    assert mach.client.HoldNew? ==> hand[0] == mach.client.pkt;
  }

  lemma ReachableRising(c: Config, s: State)
    requires Reachable(c, s)
    ensures AllRising(s)
  {
    var steps :| From(c, Init(c), steps) == At(s);
    RunRising(c, Init(c), steps);
  }

  lemma Parts(a: seq<Packet>, h: seq<Packet>, b: seq<Packet>, bound: int)
    requires Rising(a + h + b, bound)
    ensures forall i, j | 0 <= i < j < |a| :: a[i].msg.seqno < a[j].msg.seqno
    ensures forall i, j | 0 <= i < j < |b| :: b[i].msg.seqno < b[j].msg.seqno
    ensures forall i, j | 0 <= i < |a| && 0 <= j < |b| :: a[i].msg.seqno < b[j].msg.seqno
    ensures forall i, j | 0 <= i < |a| && 0 <= j < |h| :: a[i].msg.seqno < h[j].msg.seqno
    ensures forall i, j | 0 <= i < |h| && 0 <= j < |b| :: h[i].msg.seqno < b[j].msg.seqno
  {
    var ps := a + h + b;
    assert forall i | 0 <= i < |a| :: a[i] == ps[i];
    assert forall i | 0 <= i < |h| :: h[i] == ps[|a| + i];
    assert forall i | 0 <= i < |b| :: b[i] == ps[|a| + |h| + i];
  }

  // ---------------------------------------------------------------- what the counts say

  predicate IsTaskOf(p: Packet, q: int) { p.msg.status != 0 && p.msg.seqno == q }

  /** Machine m holds task q somewhere. */
  ghost predicate Holds(mach: Machine, q: int) {
    || (exists k | 0 <= k < |mach.down| :: IsTaskOf(mach.down[k], q))
    || ((mach.client.HoldNew? || mach.client.HoldDone?) && IsTaskOf(mach.client.pkt, q))
    || (exists k | 0 <= k < |mach.s2w| :: IsTaskOf(mach.s2w[k], q))
    || (exists k | 0 <= k < |mach.workers| :: !mach.workers[k].Idle? && IsTaskOf(mach.workers[k].pkt, q))
    || (exists k | 0 <= k < |mach.w2s| :: IsTaskOf(mach.w2s[k], q))
    || (exists k | 0 <= k < |mach.up| :: IsTaskOf(mach.up[k], q))
  }

  lemma {:induction false} SomeCopy(at: Place, ps: seq<Packet>, q: int)
    ensures Sum(at, ps, Copies(q)) > 0 <==> exists k | 0 <= k < |ps| :: IsTaskOf(ps[k], q)
  {
    if ps == [] {
    } else {
      SomeCopy(at, ps[1..], q);
      if k :| 0 <= k < |ps[1..]| && IsTaskOf(ps[1..][k], q) { assert IsTaskOf(ps[k + 1], q); }
      if k :| 0 < k < |ps| && IsTaskOf(ps[k], q) { assert IsTaskOf(ps[1..][k - 1], q); }
    }
  }

  lemma {:induction false} TwoCopies(at: Place, ps: seq<Packet>, q: int, i: nat, j: nat)
    requires i < j < |ps| && IsTaskOf(ps[i], q) && IsTaskOf(ps[j], q)
    ensures Sum(at, ps, Copies(q)) >= 2
  {
    if i == 0 {
      assert IsTaskOf(ps[1..][j - 1], q);
      SomeCopy(at, ps[1..], q);
    } else {
      TwoCopies(at, ps[1..], q, i - 1, j - 1);
    }
  }

  lemma {:induction false} SomeWorker(ws: seq<Worker>, q: int)
    ensures WorkersSum(ws, Copies(q)) > 0 <==> exists k | 0 <= k < |ws| :: !ws[k].Idle? && IsTaskOf(ws[k].pkt, q)
  {
    if ws == [] {
    } else {
      SomeWorker(ws[1..], q);
      if k :| 0 <= k < |ws[1..]| && !ws[1..][k].Idle? && IsTaskOf(ws[1..][k].pkt, q) { assert IsTaskOf(ws[k + 1].pkt, q); }
      if k :| 0 < k < |ws| && !ws[k].Idle? && IsTaskOf(ws[k].pkt, q) { assert IsTaskOf(ws[1..][k - 1].pkt, q); }
    }
  }

  lemma HoldsIff(mach: Machine, q: int)
    ensures Weigh(mach, Copies(q)) > 0 <==> Holds(mach, q)
  {
    SomeCopy(Down, mach.down, q);
    SomeCopy(S2w, mach.s2w, q);
    SomeCopy(W2s, mach.w2s, q);
    SomeCopy(Up, mach.up, q);
    SomeWorker(mach.workers, q);
  }

  lemma {:induction false} SomeHolder(ms: seq<Machine>, q: int) returns (m: nat)
    requires Total(ms, Copies(q)) > 0
    ensures m < |ms| && Holds(ms[m], q)
  {
    HoldsIff(ms[0], q);
    if Holds(ms[0], q) {
      m := 0;
    } else {
      m := SomeHolder(ms[1..], q);
      m := m + 1;
    }
  }

  /** In every reachable state a task that was sent has either been received by the server or is at
      one machine, never both, and no task is anywhere that was not sent. */
  lemma Whereabouts(c: Config, s: State, q: int)
    requires Reachable(c, s)
    ensures var back := exists k | 0 <= k < |s.past + s.round| :: IsTaskOf((s.past + s.round)[k], q);
            var away := exists m: nat :: m < |s.machines| && Holds(s.machines[m], q);
            && (0 <= q < s.outmsg <==> back || away) && !(back && away)
    ensures forall m: nat, k: nat | m < k < |s.machines| :: !(Holds(s.machines[m], q) && Holds(s.machines[k], q))
  {
    TasksConserved(c, s, q);
    SumConcat(Arrived, s.past, s.round, Copies(q));
    SomeCopy(Arrived, s.past + s.round, q);
    if Total(s.machines, Copies(q)) > 0 { var m := SomeHolder(s.machines, q); }
    forall m: nat | m < |s.machines| && Holds(s.machines[m], q) ensures Total(s.machines, Copies(q)) > 0 {
      HoldsIff(s.machines[m], q);
      TotalUpdate(s.machines, m, s.machines[m], Copies(q));
    }
    forall m: nat, k: nat | m < k < |s.machines| ensures !(Holds(s.machines[m], q) && Holds(s.machines[k], q)) {
      HoldsIff(s.machines[m], q);
      HoldsIff(s.machines[k], q);
      TwoMachines(s.machines, m, k, Copies(q));
    }
  }

  lemma {:induction false} SomeCopyFrom(ps: seq<Packet>, m: int, q: int, k: nat)
    requires k < |ps| && IsTaskOf(ps[k], q) && ps[k].msg.src == m
    ensures Sum(Arrived, ps, CopiesFrom(m, q)) > 0
  {
    if k == 0 {
    } else {
      SomeCopyFrom(ps[1..], m, q, k - 1);
    }
  }

  /** The replies of this round that come from machine m are to the tasks sent to machine m. */
  lemma RepliesFromDestination(c: Config, s: State, k: nat)
    requires Reachable(c, s) && k < |s.round|
    ensures var p := s.round[k].msg;
            && 0 <= p.src < c.machines
            && s.start + p.src * c.thrdpm <= p.seqno < s.start + p.src * c.thrdpm + c.thrdpm
  {
    ReachableInv(c, s);
    var p := s.round[k].msg;
    assert ReplyFrom(c, p.src, s.round[k]);
    assert Share(c, s, p.src) && ShareOf(c, s, p.src, p.seqno);
    SomeCopyFrom(s.round, p.src, p.seqno, k);
  }

  /** When a round ends, every number sent in it has come back, no other has, and none has twice. */
  lemma RoundComplete(c: Config, s: State, q: int)
    requires Reachable(c, s) && Enabled(c, s, EndRound)
    ensures (exists k | 0 <= k < |s.round| :: IsTaskOf(s.round[k], q)) <==> s.start <= q < s.outmsg
    ensures forall i, j | 0 <= i < j < |s.round| :: !(IsTaskOf(s.round[i], q) && IsTaskOf(s.round[j], q))
    ensures |s.round| == s.outmsg - s.start && s.inmsg == s.outmsg
  {
    RoundEnd(c, s);
    SomeCopy(Arrived, s.round, q);
    forall i, j | 0 <= i < j < |s.round| ensures !(IsTaskOf(s.round[i], q) && IsTaskOf(s.round[j], q)) {
      if IsTaskOf(s.round[i], q) && IsTaskOf(s.round[j], q) { TwoCopies(Arrived, s.round, q, i, j); }
    }
  }
}
