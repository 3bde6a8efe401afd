/**
 The MPI task protocol of mpi/scheduler.cpp and mpi/worker.cpp as a state machine:
 one server, `machines` clients, `thrdpm` workers per client, and one lossless ordered
 channel in each direction between the server and every client.

 Every state transition is one `Step`; nondeterminism is the choice of the step.  A run is
 a sequence of steps, each enabled where it is taken.
 */
module TaskProtocol {
  import opened Packets

  /** `crc` is any checksum of the covered bytes. */
  datatype Config = Config(machines: nat, thrdpm: nat, crc: Msg -> int) {
    /** The scheduler is the last rank (mpi/dynamic.cpp:50). */
    function SchedRank(): int { machines }
  }

  /** Program counter of `sched_client`, with the packet it has in hand. */
  datatype Client = Boot | AtBarrier | Polling | HoldNew(pkt: Packet) | HoldDone(pkt: Packet)

  /** Program counter of one `worker`, with the task it works on. */
  datatype Worker = Idle | Got(pkt: Packet) | Marked(pkt: Packet)

  /** One client machine with its two channel ends. */
  datatype Machine = Machine(
    down: seq<Packet>, client: Client, s2w: seq<Packet>, workers: seq<Worker>,
    w2s: seq<Packet>, up: seq<Packet>)

  /** Program counter of `sched_server`; `Waiting` is `waitforall`. */
  datatype Server = Waiting(livecnt: nat) | Sending(i: nat, j: nat) | Receiving(k: nat)

  /** `heard`, `past`, `round` and `start` are history: the packets consumed by
      `waitforall`, the replies of earlier rounds, those of this round, and the value
      of `outmsg` when this round began. */
  datatype State = State(
    server: Server, outmsg: nat, inmsg: nat, machines: seq<Machine>,
    heard: seq<Packet>, past: seq<Packet>, round: seq<Packet>, start: nat)

  /** Steps that touch one machine only. */
  datatype LocalStep =
    | SendHeartbeat | PassBarrier
    | ClientRecv | ClientPut | ClientPop | ClientSend
    | WorkerGet(w: nat) | WorkerMark(w: nat) | WorkerPut(w: nat)

  datatype Step =
    | Local(m: nat, l: LocalStep)
    | Hear(m: nat) | StartRounds
    | Send | NextMachine | StartReceiving | Receive(m: nat) | EndRound

  // ---------------------------------------------------------------- packets

  function Encap(c: Config, m: Msg): (p: Packet) { Packet(m, c.crc(m)) }

  predicate CrcOk(c: Config, p: Packet) { p.crc == c.crc(p.msg) }

  function Heartbeat(c: Config, m: int): (p: Packet) {
    Encap(c, Msg(m, c.SchedRank(), 0, 0, 0, m))
  }

  function Task(c: Config, m: int, seqno: int): (p: Packet) {
    Encap(c, Msg(c.SchedRank(), m, seqno, 0, UNDONE, c.SchedRank()))
  }

  /** What `client_sendtestmsg_wt_buffer` makes of the packet of a finished task. */
  function ReplyTo(c: Config, m: int, p: Packet): (r: Packet) {
    Encap(c, p.msg.(src := m, dst := c.SchedRank(), rank := m))
  }

  // ---------------------------------------------------------------- transitions

  function Init(c: Config): (s: State) {
    State(Waiting(0), 0, 0, seq(c.machines, _ => InitMachine(c)), [], [], [], 0)
  }

  function InitMachine(c: Config): (mach: Machine) {
    Machine([], Boot, [], seq(c.thrdpm, _ => Idle), [], [])
  }

  predicate LocalEnabled(mach: Machine, l: LocalStep) {
    match l
    case SendHeartbeat => mach.client.Boot?
    case PassBarrier => mach.client.AtBarrier?
    case ClientRecv => mach.client.Polling? && mach.down != []
    case ClientPut => mach.client.HoldNew?
    case ClientPop => mach.client.Polling? && mach.w2s != []
    case ClientSend => mach.client.HoldDone?
    // Workers leave the barrier together with the client.
    case WorkerGet(w) =>
      w < |mach.workers| && mach.workers[w].Idle? && mach.s2w != [] && Running(mach)
    case WorkerMark(w) => w < |mach.workers| && mach.workers[w].Got?
    case WorkerPut(w) => w < |mach.workers| && mach.workers[w].Marked?
  }

  predicate Running(mach: Machine) { !mach.client.Boot? && !mach.client.AtBarrier? }

  function LocalDo(c: Config, m: int, mach: Machine, l: LocalStep): (r: Machine)
    requires LocalEnabled(mach, l)
  {
    match l
    case SendHeartbeat => mach.(client := AtBarrier, up := mach.up + [Heartbeat(c, m)])
    case PassBarrier => mach.(client := Polling)
    case ClientRecv => mach.(client := HoldNew(mach.down[0]), down := mach.down[1..])
    case ClientPut => mach.(client := Polling, s2w := mach.s2w + [mach.client.pkt])
    case ClientPop => mach.(client := HoldDone(mach.w2s[0]), w2s := mach.w2s[1..])
    case ClientSend =>
      mach.(client := Polling, up := mach.up + [ReplyTo(c, m, mach.client.pkt)])
    case WorkerGet(w) =>
      mach.(workers := mach.workers[w := Got(mach.s2w[0])], s2w := mach.s2w[1..])
    case WorkerMark(w) =>
      var p := mach.workers[w].pkt;
      // Only the field is written; the checksum slot keeps its old value.
      mach.(workers := mach.workers[w := Marked(p.(msg := p.msg.(status := DONE)))])
    case WorkerPut(w) =>
      mach.(workers := mach.workers[w := Idle], w2s := mach.w2s + [mach.workers[w].pkt])
  }

  predicate Enabled(c: Config, s: State, step: Step) {
    match step
    case Local(m, l) => m < |s.machines| && LocalEnabled(s.machines[m], l)
    case Hear(m) =>
      s.server.Waiting? && s.server.livecnt < c.machines && m < |s.machines| && s.machines[m].up != []
    case StartRounds => s.server.Waiting? && s.server.livecnt >= c.machines
    case Send => s.server.Sending? && s.server.i < c.machines && s.server.j < c.thrdpm
                 && s.server.i < |s.machines|
    case NextMachine => s.server.Sending? && s.server.i < c.machines && s.server.j >= c.thrdpm
    case StartReceiving => s.server.Sending? && s.server.i >= c.machines
    case Receive(m) =>
      s.server.Receiving? && s.server.k < c.machines * c.thrdpm && m < |s.machines| && s.machines[m].up != []
    case EndRound => s.server.Receiving? && s.server.k >= c.machines * c.thrdpm
  }

  function Do(c: Config, s: State, step: Step): (r: State)
    requires Enabled(c, s, step)
  {
    match step
    case Local(m, l) => s.(machines := s.machines[m := LocalDo(c, m, s.machines[m], l)])
    case Hear(m) =>
      var mach := s.machines[m];
      s.(server := Waiting(s.server.livecnt + 1), heard := s.heard + [mach.up[0]],
         machines := s.machines[m := mach.(up := mach.up[1..])])
    case StartRounds => s.(server := Sending(0, 0), start := s.outmsg)
    case Send =>
      var mach := s.machines[s.server.i];
      s.(server := Sending(s.server.i, s.server.j + 1), outmsg := s.outmsg + 1,
         machines := s.machines[s.server.i :=
           mach.(down := mach.down + [Task(c, s.server.i, s.outmsg)])])
    case NextMachine => s.(server := Sending(s.server.i + 1, 0))
    case StartReceiving => s.(server := Receiving(0))
    case Receive(m) =>
      var mach := s.machines[m];
      s.(server := Receiving(s.server.k + 1), inmsg := s.inmsg + 1, round := s.round + [mach.up[0]],
         machines := s.machines[m := mach.(up := mach.up[1..])])
    case EndRound => s.(server := Sending(0, 0), past := s.past + s.round, round := [], start := s.outmsg)
  }

  datatype Outcome = Stuck | At(s: State)

  /** The state a run ends in; `Stuck` when some step was not enabled. */
  function From(c: Config, s: State, steps: seq<Step>): (o: Outcome)
    decreases |steps|
  {
    if steps == [] then At(s)
    else if Enabled(c, s, steps[0]) then From(c, Do(c, s, steps[0]), steps[1..])
    else Stuck
  }

  ghost predicate Reachable(c: Config, s: State) {
    exists steps :: From(c, Init(c), steps) == At(s)
  }

  // ---------------------------------------------------------------- where a task is

  /** The places a packet can be, in the order in which a task visits them. */
  datatype Place = Down | HandNew | S2w | AtWorker | AtWorkerDone | W2s | HandDone | Up | Arrived

  /** What a packet counts for at a place.  Counting with different weights gives the number
      of copies of a sequence number, the number of tasks, and the work left. */
  type Weight = (Place, Packet) -> nat

  ghost function Sum(at: Place, ps: seq<Packet>, f: Weight): nat {
    if ps == [] then 0 else f(at, ps[0]) + Sum(at, ps[1..], f)
  }

  ghost function WorkerWeight(w: Worker, f: Weight): nat {
    match w
    case Idle => 0
    case Got(p) => f(AtWorker, p)
    case Marked(p) => f(AtWorkerDone, p)
  }

  ghost function WorkersSum(ws: seq<Worker>, f: Weight): nat {
    if ws == [] then 0 else WorkerWeight(ws[0], f) + WorkersSum(ws[1..], f)
  }

  ghost function ClientWeight(cl: Client, f: Weight): nat {
    match cl
    case HoldNew(p) => f(HandNew, p)
    case HoldDone(p) => f(HandDone, p)
    case _ => 0
  }

  ghost function Weigh(mach: Machine, f: Weight): nat {
    Sum(Down, mach.down, f) + ClientWeight(mach.client, f) + Sum(S2w, mach.s2w, f)
    + WorkersSum(mach.workers, f) + Sum(W2s, mach.w2s, f) + Sum(Up, mach.up, f)
  }

  ghost function Total(ms: seq<Machine>, f: Weight): nat {
    if ms == [] then 0 else Weigh(ms[0], f) + Total(ms[1..], f)
  }

  lemma {:induction false} SumConcat(at: Place, a: seq<Packet>, b: seq<Packet>, f: Weight)
    ensures Sum(at, a + b, f) == Sum(at, a, f) + Sum(at, b, f)
  {
    if a == [] {
      assert a + b == b;
    } else {
      SumConcat(at, a[1..], b, f);
      assert (a + b)[1..] == a[1..] + b;
    }
  }

  lemma {:induction false} SumAppend(at: Place, a: seq<Packet>, p: Packet, f: Weight)
    ensures Sum(at, a + [p], f) == Sum(at, a, f) + f(at, p)
  {
    SumConcat(at, a, [p], f);
  }

  lemma {:induction false} WorkersUpdate(ws: seq<Worker>, w: nat, x: Worker, f: Weight)
    requires w < |ws|
    ensures WorkersSum(ws[w := x], f) + WorkerWeight(ws[w], f) == WorkersSum(ws, f) + WorkerWeight(x, f)
  {
    if w == 0 {
      assert ws[w := x][1..] == ws[1..];
    } else {
      WorkersUpdate(ws[1..], w - 1, x, f);
      assert ws[w := x][1..] == ws[1..][w - 1 := x];
    }
  }

  lemma {:induction false} TotalUpdate(ms: seq<Machine>, m: nat, x: Machine, f: Weight)
    requires m < |ms|
    ensures Total(ms[m := x], f) + Weigh(ms[m], f) == Total(ms, f) + Weigh(x, f)
    ensures Weigh(ms[m], f) <= Total(ms, f)
  {
    if m == 0 {
      assert ms[m := x][1..] == ms[1..];
    } else {
      TotalUpdate(ms[1..], m - 1, x, f);
      assert ms[m := x][1..] == ms[1..][m - 1 := x];
    }
  }

  /** The place and packet a local step takes a packet from, and where it puts it.  The two
      steps without a task move nothing. */
  ghost function Taken(mach: Machine, l: LocalStep, f: Weight): nat
    requires LocalEnabled(mach, l)
  {
    match l
    case SendHeartbeat => 0
    case PassBarrier => 0
    case ClientRecv => f(Down, mach.down[0])
    case ClientPut => f(HandNew, mach.client.pkt)
    case ClientPop => f(W2s, mach.w2s[0])
    case ClientSend => f(HandDone, mach.client.pkt)
    case WorkerGet(w) => f(S2w, mach.s2w[0])
    case WorkerMark(w) => f(AtWorker, mach.workers[w].pkt)
    case WorkerPut(w) => f(AtWorkerDone, mach.workers[w].pkt)
  }

  ghost function Put(c: Config, m: int, mach: Machine, l: LocalStep, f: Weight): nat
    requires LocalEnabled(mach, l)
  {
    match l
    case SendHeartbeat => f(Up, Heartbeat(c, m))
    case PassBarrier => 0
    case ClientRecv => f(HandNew, mach.down[0])
    case ClientPut => f(S2w, mach.client.pkt)
    case ClientPop => f(HandDone, mach.w2s[0])
    case ClientSend => f(Up, ReplyTo(c, m, mach.client.pkt))
    case WorkerGet(w) => f(AtWorker, mach.s2w[0])
    case WorkerMark(w) =>
      var p := mach.workers[w].pkt; f(AtWorkerDone, p.(msg := p.msg.(status := DONE)))
    case WorkerPut(w) => f(W2s, mach.workers[w].pkt)
  }

  /** Every local step moves one packet from one place to the next and leaves the rest. */
  lemma LocalMoves(c: Config, m: int, mach: Machine, l: LocalStep, f: Weight)
    requires LocalEnabled(mach, l)
    ensures Weigh(LocalDo(c, m, mach, l), f) + Taken(mach, l, f)
            == Weigh(mach, f) + Put(c, m, mach, l, f)
  {
    match l
    case SendHeartbeat => SumAppend(Up, mach.up, Heartbeat(c, m), f);
    case PassBarrier =>
    case ClientRecv =>
    case ClientPut => SumAppend(S2w, mach.s2w, mach.client.pkt, f);
    case ClientPop =>
    case ClientSend => SumAppend(Up, mach.up, ReplyTo(c, m, mach.client.pkt), f);
    case WorkerGet(w) => WorkersUpdate(mach.workers, w, Got(mach.s2w[0]), f);
    case WorkerMark(w) =>
      var p := mach.workers[w].pkt;
      WorkersUpdate(mach.workers, w, Marked(p.(msg := p.msg.(status := DONE))), f);
    case WorkerPut(w) =>
      WorkersUpdate(mach.workers, w, Idle, f);
      SumAppend(W2s, mach.w2s, mach.workers[w].pkt, f);
  }

  predicate IsTask(p: Packet) { p.msg.status != 0 }

  /** How many copies of task `q` there are. */
  ghost function Copies(q: int): Weight {
    (at: Place, p: Packet) => if IsTask(p) && p.msg.seqno == q then 1 else 0
  }

  ghost function CopiesFrom(m: int, q: int): Weight {
    (at: Place, p: Packet) => if p.msg.src == m && IsTask(p) && p.msg.seqno == q then 1 else 0
  }

  /** How many tasks there are. */
  ghost function Tasks(): Weight {
    (at: Place, p: Packet) => if IsTask(p) then 1 else 0
  }

  ghost function TasksFrom(m: int): Weight {
    (at: Place, p: Packet) => if p.msg.src == m && IsTask(p) then 1 else 0
  }

  /** How many steps a packet still has to make. */
  ghost function Stage(): Weight {
    (at: Place, p: Packet) =>
      match at
      case Down => 8
      case HandNew => 7
      case S2w => 6
      case AtWorker => 5
      case AtWorkerDone => 4
      case W2s => 3
      case HandDone => 2
      case Up => 1
      case Arrived => 0
  }

  // ---------------------------------------------------------------- invariant

  predicate TaskFor(c: Config, m: int, p: Packet) { p == Task(c, m, p.msg.seqno) }

  /** A finished task before it is encapsulated again; nothing is known of its checksum. */
  predicate DoneFor(c: Config, m: int, p: Packet) {
    p.msg == Task(c, m, p.msg.seqno).msg.(status := DONE)
  }

  predicate ReplyFrom(c: Config, m: int, p: Packet) {
    p == Encap(c, Msg(m, c.SchedRank(), p.msg.seqno, 0, DONE, m))
  }

  ghost predicate WorkerShaped(c: Config, m: int, w: Worker) {
    && (w.Got? ==> TaskFor(c, m, w.pkt))
    && (w.Marked? ==> DoneFor(c, m, w.pkt))
  }

  ghost predicate AllTasks(c: Config, m: int, ps: seq<Packet>) {
    forall k | 0 <= k < |ps| :: TaskFor(c, m, ps[k])
  }

  ghost predicate AllDone(c: Config, m: int, ps: seq<Packet>) {
    forall k | 0 <= k < |ps| :: DoneFor(c, m, ps[k])
  }

  ghost predicate AllReplies(c: Config, m: int, ps: seq<Packet>) {
    forall k | 0 <= k < |ps| :: ReplyFrom(c, m, ps[k])
  }

  /** What the packets of machine `m` look like, place by place. */
  ghost predicate Shaped(c: Config, m: int, mach: Machine, heard: bool) {
    && |mach.workers| == c.thrdpm
    && AllTasks(c, m, mach.down)
    && AllTasks(c, m, mach.s2w)
    && (forall k | 0 <= k < |mach.workers| :: WorkerShaped(c, m, mach.workers[k]))
    && AllDone(c, m, mach.w2s)
    && (mach.client.HoldNew? ==> TaskFor(c, m, mach.client.pkt))
    && (mach.client.HoldDone? ==> DoneFor(c, m, mach.client.pkt))
    && if heard then !mach.client.Boot? && AllReplies(c, m, mach.up)
       else mach.up == (if mach.client.Boot? then [] else [Heartbeat(c, m)]) && Unused(mach)
  }

  /** No task is at the machine, except possibly in its channel to the server. */
  ghost predicate Unused(mach: Machine) {
    && mach.down == [] && mach.s2w == [] && mach.w2s == []
    && !mach.client.HoldNew? && !mach.client.HoldDone?
    && forall k | 0 <= k < |mach.workers| :: mach.workers[k].Idle?
  }

  ghost predicate Empty(mach: Machine) { Unused(mach) && mach.up == [] }

  ghost function Sources(ps: seq<Packet>): set<int> { set p <- ps :: p.msg.src }

  /** How many tasks the server has sent to machine `m` in this round. */
  function SentTo(c: Config, server: Server, m: int): nat {
    match server
    case Waiting(_) => 0
    case Sending(i, j) => if m < i then c.thrdpm else if m == i then j else 0
    case Receiving(_) => c.thrdpm
  }

  ghost predicate Control(c: Config, s: State) {
    && |s.machines| == c.machines
    && s.inmsg == |s.past| + |s.round|
    && |s.past| == s.start
    && match s.server
       case Waiting(n) => n == |s.heard| && s.outmsg == s.start == 0 && s.round == []
       case Sending(i, j) =>
         && |s.heard| == c.machines && i <= c.machines && j <= c.thrdpm && (i == c.machines ==> j == 0)
         && s.outmsg == s.start + i * c.thrdpm + j && s.round == []
       case Receiving(k) =>
         && |s.heard| == c.machines && k == |s.round| <= c.machines * c.thrdpm
         && s.outmsg == s.start + c.machines * c.thrdpm
  }

  ghost predicate Replies(c: Config, ps: seq<Packet>) {
    forall k | 0 <= k < |ps| ::
      0 <= ps[k].msg.src < c.machines && ReplyFrom(c, ps[k].msg.src, ps[k])
  }

  ghost predicate Shapes(c: Config, s: State) {
    && |s.machines| == c.machines
    && (forall m | 0 <= m < c.machines :: Shaped(c, m, s.machines[m], m in Sources(s.heard)))
    && (forall k | 0 <= k < |s.heard| :: s.heard[k] == Heartbeat(c, s.heard[k].msg.src))
    && (forall x <- Sources(s.heard) :: 0 <= x < c.machines)
    && |Sources(s.heard)| == |s.heard|
    && Replies(c, s.past) && Replies(c, s.round)
  }

  function Within(lo: int, q: int, hi: int): nat { if lo <= q < hi then 1 else 0 }

  /** The tasks of machine `m` this round, split into those at the machine and those back. */
  ghost predicate Share(c: Config, s: State, m: int)
    requires 0 <= m < |s.machines|
  {
    && Weigh(s.machines[m], Tasks()) + Sum(Arrived, s.round, TasksFrom(m)) == SentTo(c, s.server, m)
    && forall q :: ShareOf(c, s, m, q)
  }

  ghost predicate ShareOf(c: Config, s: State, m: int, q: int)
    requires 0 <= m < |s.machines|
  {
    var lo := s.start + m * c.thrdpm;
    Weigh(s.machines[m], Copies(q)) + Sum(Arrived, s.round, CopiesFrom(m, q))
    == Within(lo, q, lo + SentTo(c, s.server, m))
  }

  /** Task `q` is at one place if it was sent this round, nowhere if it was not. */
  ghost predicate OnceThisRound(s: State, q: int) {
    Total(s.machines, Copies(q)) + Sum(Arrived, s.round, Copies(q)) == Within(s.start, q, s.outmsg)
  }

  ghost predicate OnceBefore(s: State, q: int) {
    Sum(Arrived, s.past, Copies(q)) == Within(0, q, s.start)
  }

  ghost predicate Shares(c: Config, s: State) {
    && |s.machines| == c.machines
    && forall m | 0 <= m < c.machines :: Share(c, s, m)
  }

  ghost predicate Totals(c: Config, s: State) {
    && s.start <= s.outmsg
    && Total(s.machines, Tasks()) + |s.round| == s.outmsg - s.start
    && (forall q :: OnceBefore(s, q))
    && (forall q :: OnceThisRound(s, q))
  }

  ghost predicate Conserved(c: Config, s: State) { Shares(c, s) && Totals(c, s) }

  ghost predicate Inv(c: Config, s: State) {
    Control(c, s) && Shapes(c, s) && Conserved(c, s)
  }

  lemma {:induction false} IdleSum(ws: seq<Worker>, f: Weight)
    requires forall k | 0 <= k < |ws| :: ws[k].Idle?
    ensures WorkersSum(ws, f) == 0
  {
    if ws == [] {
    } else {
      IdleSum(ws[1..], f);
    }
  }

  lemma EmptyWeighsNothing(mach: Machine, f: Weight)
    requires Empty(mach)
    ensures Weigh(mach, f) == 0
  {
    IdleSum(mach.workers, f);
  }

  lemma {:induction false} AllEmptyTotal(ms: seq<Machine>, f: Weight)
    requires forall k | 0 <= k < |ms| :: Empty(ms[k])
    ensures Total(ms, f) == 0
  {
    if ms == [] {
    } else {
      EmptyWeighsNothing(ms[0], f);
      AllEmptyTotal(ms[1..], f);
    }
  }

  lemma InitShares(c: Config)
    ensures Shares(c, Init(c))
  {
    var s := Init(c);
    forall m | 0 <= m < c.machines ensures Share(c, s, m) {
      EmptyWeighsNothing(s.machines[m], Tasks());
      forall q ensures ShareOf(c, s, m, q) { EmptyWeighsNothing(s.machines[m], Copies(q)); }
    }
  }

  lemma InitTotals(c: Config)
    ensures Totals(c, Init(c))
  {
    var s := Init(c);
    AllEmptyTotal(s.machines, Tasks());
    forall q ensures OnceBefore(s, q) && OnceThisRound(s, q) { AllEmptyTotal(s.machines, Copies(q)); }
  }

  lemma InitInv(c: Config)
    ensures Inv(c, Init(c))
  {
    InitShares(c);
    InitTotals(c);
  }

  // ---------------------------------------------------------------- preservation

  lemma LocalShapes(c: Config, m: int, mach: Machine, l: LocalStep, heard: bool)
    requires Shaped(c, m, mach, heard) && LocalEnabled(mach, l)
    ensures Shaped(c, m, LocalDo(c, m, mach, l), heard)
    ensures Taken(mach, l, Tasks()) == Put(c, m, mach, l, Tasks())
    ensures forall q :: Taken(mach, l, Copies(q)) == Put(c, m, mach, l, Copies(q))
  {
  }

  /** A set of n ranks below n holds every rank below n. */
  lemma {:induction false} AllRanks(n: nat, x: set<int>)
    requires forall r | r in x :: 0 <= r < n
    requires |x| >= n
    ensures |x| == n
    ensures forall m | 0 <= m < n :: m in x
  {
    if n == 0 {
      forall r ensures r !in x {}
      assert x == {};
    } else {
      var y := x - {n - 1};
      assert n - 1 !in x ==> y == x;
      AllRanks(n - 1, y);
      forall m | 0 <= m < n ensures m in x { assert m in y || m == n - 1; }
    }
  }

  /** Outside `waitforall` every client has been heard. */
  lemma AllHeard(c: Config, s: State)
    requires Shapes(c, s) && |s.heard| >= c.machines
    ensures |s.heard| == c.machines
    ensures forall m | 0 <= m < c.machines :: m in Sources(s.heard)
    ensures forall m | 0 <= m < c.machines :: Shaped(c, m, s.machines[m], true)
  {
    AllRanks(c.machines, Sources(s.heard));
  }

  lemma StepControl(c: Config, s: State, step: Step)
    requires Control(c, s) && Enabled(c, s, step)
    requires step.StartRounds? ==> |s.heard| == c.machines
    ensures Control(c, Do(c, s, step))
  {
    if step.NextMachine? {
      assert (s.server.i + 1) * c.thrdpm == s.server.i * c.thrdpm + c.thrdpm;
    }
  }

  lemma HearUnheard(c: Config, s: State, m: nat)
    requires Inv(c, s) && Enabled(c, s, Hear(m))
    ensures m !in Sources(s.heard)
    ensures s.machines[m].up == [Heartbeat(c, m)]
  {
    assert Share(c, s, m);
    if m in Sources(s.heard) {
      AllTasksCount(c, m, s.machines[m].up);
    }
  }

  lemma AllTasksCount(c: Config, m: int, ps: seq<Packet>)
    requires AllReplies(c, m, ps) && ps != []
    ensures Sum(Up, ps, Tasks()) > 0
  {
    assert ReplyFrom(c, m, ps[0]);
  }

  lemma SourcesAppend(ps: seq<Packet>, p: Packet)
    ensures Sources(ps + [p]) == Sources(ps) + {p.msg.src}
  {
    assert forall x :: x in ps + [p] <==> x in ps || x == p;
  }

  lemma HearShapes(c: Config, s: State, m: nat)
    requires Shapes(c, s) && Enabled(c, s, Hear(m))
    requires m !in Sources(s.heard) && s.machines[m].up == [Heartbeat(c, m)]
    ensures Shapes(c, Do(c, s, Hear(m)))
  {
    var s' := Do(c, s, Hear(m));
    SourcesAppend(s.heard, Heartbeat(c, m));
    forall k | 0 <= k < c.machines ensures Shaped(c, k, s'.machines[k], k in Sources(s'.heard)) {
      assert Shaped(c, k, s.machines[k], k in Sources(s.heard));
    }
  }

  lemma StepShapes(c: Config, s: State, step: Step)
    requires Inv(c, s) && Enabled(c, s, step)
    ensures Shapes(c, Do(c, s, step))
  {
    match step
    case Local(m, l) => LocalShapes(c, m, s.machines[m], l, m in Sources(s.heard));
    case Hear(m) =>
      HearUnheard(c, s, m);
      HearShapes(c, s, m);
    case Send => SendShapes(c, s);
    case Receive(m) => ReceiveShapes(c, s, m);
    case _ =>
  }

  lemma SendShapes(c: Config, s: State)
    requires Control(c, s) && Shapes(c, s) && Enabled(c, s, Send)
    ensures Shapes(c, Do(c, s, Send))
  {
    var s' := Do(c, s, Send);
    AllHeard(c, s);
    forall k | 0 <= k < c.machines ensures Shaped(c, k, s'.machines[k], k in Sources(s'.heard)) {
      assert Shaped(c, k, s.machines[k], true);
    }
  }

  lemma ReceiveShapes(c: Config, s: State, m: nat)
    requires Control(c, s) && Shapes(c, s) && Enabled(c, s, Receive(m))
    ensures ReplyFrom(c, m, s.machines[m].up[0])
    ensures Shapes(c, Do(c, s, Receive(m)))
  {
    AllHeard(c, s);
    assert ReplyFrom(c, m, s.machines[m].up[0]);
  }

  lemma LocalConserved(c: Config, s: State, m: nat, l: LocalStep)
    requires Inv(c, s) && Enabled(c, s, Local(m, l))
    ensures Conserved(c, Do(c, s, Local(m, l)))
  {
    LocalShapes(c, m, s.machines[m], l, m in Sources(s.heard));
    LocalSame(c, s, m, l, Tasks());
    forall q { LocalSame(c, s, m, l, Copies(q)); }
    SameWeights(c, s, Do(c, s, Local(m, l)));
  }

  lemma LocalSame(c: Config, s: State, m: nat, l: LocalStep, f: Weight)
    requires Enabled(c, s, Local(m, l))
    requires Taken(s.machines[m], l, f) == Put(c, m, s.machines[m], l, f)
    ensures SameWeight(s, Do(c, s, Local(m, l)), f)
  {
    LocalMoves(c, m, s.machines[m], l, f);
    TotalUpdate(s.machines, m, LocalDo(c, m, s.machines[m], l), f);
  }

  ghost predicate SameWeight(s: State, s': State, f: Weight) {
    && |s'.machines| == |s.machines|
    && Total(s'.machines, f) == Total(s.machines, f)
    && forall k | 0 <= k < |s.machines| :: Weigh(s'.machines[k], f) == Weigh(s.machines[k], f)
  }

  /** A step that moves no task across a machine's border and leaves the server's books alone. */
  lemma SameWeights(c: Config, s: State, s': State)
    requires Conserved(c, s)
    requires s'.start == s.start && s'.outmsg == s.outmsg && s'.round == s.round && s'.past == s.past
    requires forall m | 0 <= m < c.machines :: SentTo(c, s'.server, m) == SentTo(c, s.server, m)
    requires SameWeight(s, s', Tasks()) && forall q :: SameWeight(s, s', Copies(q))
    ensures Conserved(c, s')
  {
    forall m | 0 <= m < c.machines ensures Share(c, s', m) {
      assert Share(c, s, m);
      forall q ensures ShareOf(c, s', m, q) { assert ShareOf(c, s, m, q) && SameWeight(s, s', Copies(q)); }
    }
    forall q ensures OnceBefore(s', q) && OnceThisRound(s', q) {
      assert OnceBefore(s, q) && OnceThisRound(s, q) && SameWeight(s, s', Copies(q));
    }
  }

  lemma HearConserved(c: Config, s: State, m: nat)
    requires Inv(c, s) && Enabled(c, s, Hear(m))
    ensures Conserved(c, Do(c, s, Hear(m)))
  {
    HearUnheard(c, s, m);
    HearSame(c, s, m, Tasks());
    forall q { HearSame(c, s, m, Copies(q)); }
    SameWeights(c, s, Do(c, s, Hear(m)));
  }

  lemma HearSame(c: Config, s: State, m: nat, f: Weight)
    requires Enabled(c, s, Hear(m)) && f(Up, s.machines[m].up[0]) == 0
    ensures SameWeight(s, Do(c, s, Hear(m)), f)
  {
    TotalUpdate(s.machines, m, s.machines[m].(up := s.machines[m].up[1..]), f);
  }

  lemma ServerConserved(c: Config, s: State, step: Step)
    requires Control(c, s) && Conserved(c, s) && Enabled(c, s, step)
    requires step.StartRounds? || step.NextMachine? || step.StartReceiving?
    ensures Conserved(c, Do(c, s, step))
  {
    SameWeights(c, s, Do(c, s, step));
  }

  lemma SendWeigh(c: Config, s: State, f: Weight)
    requires Enabled(c, s, Send)
    ensures var s' := Do(c, s, Send); var i := s.server.i; var p := Task(c, i, s.outmsg);
            && Weigh(s'.machines[i], f) == Weigh(s.machines[i], f) + f(Down, p)
            && Total(s'.machines, f) == Total(s.machines, f) + f(Down, p)
  {
    var i := s.server.i;
    var s' := Do(c, s, Send);
    SumAppend(Down, s.machines[i].down, Task(c, i, s.outmsg), f);
    TotalUpdate(s.machines, i, s'.machines[i], f);
  }

  lemma SendShare(c: Config, s: State, m: int)
    requires Control(c, s) && Enabled(c, s, Send) && 0 <= m < c.machines && Share(c, s, m)
    ensures Share(c, Do(c, s, Send), m)
  {
    var s' := Do(c, s, Send);
    SendWeigh(c, s, Tasks());
    forall q ensures ShareOf(c, s', m, q) {
      assert ShareOf(c, s, m, q);
      SendWeigh(c, s, Copies(q));
    }
  }

  lemma SendConserved(c: Config, s: State)
    requires Control(c, s) && Conserved(c, s) && Enabled(c, s, Send)
    ensures Conserved(c, Do(c, s, Send))
  {
    var s' := Do(c, s, Send);
    forall m | 0 <= m < c.machines ensures Share(c, s', m) { SendShare(c, s, m); }
    SendWeigh(c, s, Tasks());
    forall q ensures OnceBefore(s', q) && OnceThisRound(s', q) {
      assert OnceBefore(s, q) && OnceThisRound(s, q);
      SendWeigh(c, s, Copies(q));
    }
  }

  lemma ReceiveWeigh(c: Config, s: State, m: nat, f: Weight)
    requires Enabled(c, s, Receive(m))
    ensures var s' := Do(c, s, Receive(m)); var p := s.machines[m].up[0];
            && Weigh(s'.machines[m], f) + f(Up, p) == Weigh(s.machines[m], f)
            && Total(s'.machines, f) + f(Up, p) == Total(s.machines, f)
            && Sum(Arrived, s'.round, f) == Sum(Arrived, s.round, f) + f(Arrived, p)
  {
    var s' := Do(c, s, Receive(m));
    TotalUpdate(s.machines, m, s'.machines[m], f);
    SumAppend(Arrived, s.round, s.machines[m].up[0], f);
  }

  lemma ReceiveShare(c: Config, s: State, m: nat, k: int)
    requires Enabled(c, s, Receive(m)) && ReplyFrom(c, m, s.machines[m].up[0])
    requires 0 <= k < |s.machines| && Share(c, s, k)
    ensures Share(c, Do(c, s, Receive(m)), k)
  {
    var s' := Do(c, s, Receive(m));
    ReceiveWeigh(c, s, m, Tasks());
    ReceiveWeigh(c, s, m, TasksFrom(k));
    forall q ensures ShareOf(c, s', k, q) {
      assert ShareOf(c, s, k, q);
      ReceiveWeigh(c, s, m, Copies(q));
      ReceiveWeigh(c, s, m, CopiesFrom(k, q));
    }
  }

  lemma ReceiveConserved(c: Config, s: State, m: nat)
    requires Conserved(c, s) && Enabled(c, s, Receive(m)) && ReplyFrom(c, m, s.machines[m].up[0])
    ensures Conserved(c, Do(c, s, Receive(m)))
  {
    var s' := Do(c, s, Receive(m));
    forall k | 0 <= k < c.machines ensures Share(c, s', k) { ReceiveShare(c, s, m, k); }
    ReceiveWeigh(c, s, m, Tasks());
    forall q ensures OnceBefore(s', q) && OnceThisRound(s', q) {
      assert OnceBefore(s, q) && OnceThisRound(s, q);
      ReceiveWeigh(c, s, m, Copies(q));
    }
  }

  lemma AtMachineEmpty(c: Config, m: int, mach: Machine)
    requires Shaped(c, m, mach, true) && Weigh(mach, Tasks()) == 0
    ensures Empty(mach)
  {
    var f := Tasks();
    forall k | 0 <= k < |mach.workers| ensures mach.workers[k].Idle? {
      WorkersUpdate(mach.workers, k, Idle, f);
      assert WorkerShaped(c, m, mach.workers[k]);
    }
  }

  /** When the last reply of a round is in, nothing is left anywhere. */
  lemma RoundOverEmpty(c: Config, s: State)
    requires Inv(c, s) && Enabled(c, s, EndRound)
    ensures forall m | 0 <= m < c.machines :: Empty(s.machines[m])
  {
    AllHeard(c, s);
    forall m | 0 <= m < c.machines ensures Empty(s.machines[m]) {
      TotalUpdate(s.machines, m, s.machines[m], Tasks());
      AtMachineEmpty(c, m, s.machines[m]);
    }
  }

  lemma EndRoundConserved(c: Config, s: State)
    requires Inv(c, s) && Enabled(c, s, EndRound)
    ensures Conserved(c, Do(c, s, EndRound))
  {
    RoundOverEmpty(c, s);
    EndRoundShares(c, s);
    EndRoundTotals(c, s);
  }

  lemma EndRoundShares(c: Config, s: State)
    requires Enabled(c, s, EndRound) && |s.machines| == c.machines
    requires forall m | 0 <= m < c.machines :: Empty(s.machines[m])
    ensures Shares(c, Do(c, s, EndRound))
  {
    var s' := Do(c, s, EndRound);
    forall m | 0 <= m < c.machines ensures Share(c, s', m) {
      EmptyWeighsNothing(s.machines[m], Tasks());
      forall q ensures ShareOf(c, s', m, q) { EmptyWeighsNothing(s.machines[m], Copies(q)); }
    }
  }

  lemma EndRoundTotals(c: Config, s: State)
    requires Totals(c, s) && Enabled(c, s, EndRound) && |s.machines| == c.machines
    requires forall m | 0 <= m < c.machines :: Empty(s.machines[m])
    ensures Totals(c, Do(c, s, EndRound))
  {
    var s' := Do(c, s, EndRound);
    AllEmptyTotal(s.machines, Tasks());
    forall q ensures OnceBefore(s', q) && OnceThisRound(s', q) {
      assert OnceBefore(s, q) && OnceThisRound(s, q);
      AllEmptyTotal(s.machines, Copies(q));
      SumConcat(Arrived, s.past, s.round, Copies(q));
    }
  }

  lemma StepInv(c: Config, s: State, step: Step)
    requires Inv(c, s) && Enabled(c, s, step)
    ensures Inv(c, Do(c, s, step))
  {
    if step.StartRounds? { AllHeard(c, s); }
    StepControl(c, s, step);
    StepShapes(c, s, step);
    match step
    case Local(m, l) => LocalConserved(c, s, m, l);
    case Hear(m) => HearConserved(c, s, m);
    case Send => SendConserved(c, s);
    case Receive(m) =>
      ReceiveShapes(c, s, m);
      ReceiveConserved(c, s, m);
    case EndRound => EndRoundConserved(c, s);
    case _ => ServerConserved(c, s, step);
  }

  lemma {:induction false} RunInv(c: Config, s: State, steps: seq<Step>)
    requires Inv(c, s) && From(c, s, steps).At?
    ensures Inv(c, From(c, s, steps).s)
    decreases |steps|
  {
    if steps == [] {
    } else {
      StepInv(c, s, steps[0]);
      RunInv(c, Do(c, s, steps[0]), steps[1..]);
    }
  }

  lemma ReachableInv(c: Config, s: State)
    requires Reachable(c, s)
    ensures Inv(c, s)
  {
    var steps :| From(c, Init(c), steps) == At(s);
    InitInv(c);
    RunInv(c, Init(c), steps);
  }

  // ---------------------------------------------------------------- safety

  /** In every reachable state each sequence number below `outmsg` is in exactly one place:
      received, or at one of the places of one machine.  No other number is anywhere. */
  lemma TasksConserved(c: Config, s: State, q: int)
    requires Reachable(c, s)
    ensures Sum(Arrived, s.past, Copies(q)) + Sum(Arrived, s.round, Copies(q)) + Total(s.machines, Copies(q))
            == if 0 <= q < s.outmsg then 1 else 0
  {
    ReachableInv(c, s);
    assert OnceBefore(s, q) && OnceThisRound(s, q);
  }

  /** A task in flight is at one machine only, among those the server sent to that machine this
      round, and no machine ever has more tasks than workers. */
  lemma TasksAtDestination(c: Config, s: State, m: int, q: int)
    requires Reachable(c, s) && 0 <= m < |s.machines|
    ensures Weigh(s.machines[m], Tasks()) <= c.thrdpm
    ensures Weigh(s.machines[m], Copies(q)) > 0 ==>
              s.start + m * c.thrdpm <= q < s.start + m * c.thrdpm + SentTo(c, s.server, m)
    ensures Weigh(s.machines[m], Copies(q)) > 0 ==>
              forall k | 0 <= k < |s.machines| && k != m :: Weigh(s.machines[k], Copies(q)) == 0
  {
    ReachableInv(c, s);
    assert Share(c, s, m) && ShareOf(c, s, m, q) && OnceThisRound(s, q);
    forall k | 0 <= k < |s.machines| && k != m && Weigh(s.machines[m], Copies(q)) > 0
      ensures Weigh(s.machines[k], Copies(q)) == 0
    {
      TwoMachines(s.machines, m, k, Copies(q));
    }
  }

  /** The packets at a machine are addressed to it until its client returns them, and then come
      from it. */
  lemma PacketsAtDestination(c: Config, s: State, m: int)
    requires Reachable(c, s) && 0 <= m < |s.machines|
    ensures forall p <- s.machines[m].down :: p.msg.dst == m && p.msg.status == 0x50
    ensures forall p <- s.machines[m].s2w :: p.msg.dst == m && p.msg.status == 0x50
    ensures forall p <- s.machines[m].w2s :: p.msg.dst == m && p.msg.status == 0x60
    ensures s.machines[m].client.HoldNew? || s.machines[m].client.HoldDone? ==> s.machines[m].client.pkt.msg.dst == m
    ensures forall w <- s.machines[m].workers :: w.Idle? || w.pkt.msg.dst == m
    ensures forall p <- s.machines[m].up :: p.msg.dst == c.machines && p.msg.src == p.msg.rank == m
  {
    ReachableInv(c, s);
    assert Shaped(c, m, s.machines[m], m in Sources(s.heard));
  }

  lemma {:induction false} TwoMachines(ms: seq<Machine>, m: nat, k: nat, f: Weight)
    requires m < |ms| && k < |ms| && m != k
    ensures Weigh(ms[m], f) + Weigh(ms[k], f) <= Total(ms, f)
  {
    if m == 0 {
      TotalUpdate(ms[1..], k - 1, ms[k], f);
    } else if k == 0 {
      TotalUpdate(ms[1..], m - 1, ms[m], f);
    } else {
      TwoMachines(ms[1..], m - 1, k - 1, f);
    }
  }

  /** When a round ends: its replies carry exactly the sequence numbers sent in it, once each,
      `thrdpm` of them from each rank, all DONE; nothing is left in any queue or channel; and
      the server's assertion `inmsg == outmsg` holds. */
  lemma RoundEnd(c: Config, s: State)
    requires Reachable(c, s) && Enabled(c, s, EndRound)
    ensures s.inmsg == s.outmsg
    ensures |s.round| == c.machines * c.thrdpm == s.outmsg - s.start
    ensures forall m | 0 <= m < |s.machines| :: Empty(s.machines[m])
    ensures forall q :: Sum(Arrived, s.round, Copies(q)) == (if s.start <= q < s.outmsg then 1 else 0)
    ensures forall m | 0 <= m < c.machines :: Sum(Arrived, s.round, TasksFrom(m)) == c.thrdpm
    ensures forall p <- s.round :: p.msg.status == 0x60 && p.msg.dst == c.machines && p.msg.rank == p.msg.src
  {
    ReachableInv(c, s);
    RoundOverEmpty(c, s);
    forall q ensures Sum(Arrived, s.round, Copies(q)) == Within(s.start, q, s.outmsg) {
      assert OnceThisRound(s, q);
      AllEmptyTotal(s.machines, Copies(q));
    }
    forall m | 0 <= m < c.machines ensures Sum(Arrived, s.round, TasksFrom(m)) == c.thrdpm {
      assert Share(c, s, m);
      EmptyWeighsNothing(s.machines[m], Tasks());
    }
  }

  /** `waitforall` consumes heartbeats only, at most one from each client, and is left only
      when every client was heard; no heartbeat is ever counted as a reply. */
  lemma HeartbeatsAndReplies(c: Config, s: State)
    requires Reachable(c, s)
    ensures forall p <- s.heard :: p == Heartbeat(c, p.msg.src)
    ensures forall i, j | 0 <= i < j < |s.heard| :: s.heard[i] != s.heard[j]
    ensures !s.server.Waiting? ==>
              |s.heard| == c.machines && forall m | 0 <= m < c.machines :: Heartbeat(c, m) in s.heard
    ensures forall p <- s.heard :: p.msg.status == 0
    ensures forall p <- s.past + s.round :: p.msg.status == DONE
  {
    ReachableInv(c, s);
    forall i, j | 0 <= i < j < |s.heard| ensures s.heard[i] != s.heard[j] { Distinct(s.heard, i, j); }
    if !s.server.Waiting? {
      AllHeard(c, s);
      forall m | 0 <= m < c.machines ensures Heartbeat(c, m) in s.heard {
        assert m in Sources(s.heard);
      }
    }
  }

  lemma {:induction false} SourcesAtMost(ps: seq<Packet>)
    ensures |Sources(ps)| <= |ps|
  {
    if ps == [] {
    } else {
      var n := |ps| - 1;
      SourcesAtMost(ps[..n]);
      SourcesAppend(ps[..n], ps[n]);
      assert ps == ps[..n] + [ps[n]];
    }
  }

  lemma {:induction false} Distinct(ps: seq<Packet>, i: nat, j: nat)
    requires |Sources(ps)| == |ps| && i < j < |ps|
    ensures ps[i] != ps[j]
  {
    var n := |ps| - 1;
    assert ps == ps[..n] + [ps[n]];
    SourcesAppend(ps[..n], ps[n]);
    SourcesAtMost(ps[..n]);
    if j == n {
    } else {
      Distinct(ps[..n], i, j);
    }
  }

  /** The checksum assertions of server and clients never fail, whatever the checksum. */
  lemma CrcNeverFails(c: Config, s: State, m: nat)
    requires Reachable(c, s) && m < |s.machines|
    ensures Enabled(c, s, Hear(m)) || Enabled(c, s, Receive(m)) ==> CrcOk(c, s.machines[m].up[0])
    ensures Enabled(c, s, Local(m, ClientRecv)) ==> CrcOk(c, s.machines[m].down[0])
  {
    ReachableInv(c, s);
    assert Shaped(c, m, s.machines[m], m in Sources(s.heard));
  }

  /** The same of the packets' bytes, for every checksum function on bytes. */
  lemma CrcNeverFailsOnBytes(machines: nat, thrdpm: nat, sum: Checksum, s: State, m: nat)
    requires Reachable(Config(machines, thrdpm, CrcOf(sum)), s) && m < |s.machines|
    ensures var c := Config(machines, thrdpm, CrcOf(sum));
            && (Enabled(c, s, Hear(m)) || Enabled(c, s, Receive(m)) ==> Passes(sum, Image(s.machines[m].up[0])))
            && (Enabled(c, s, Local(m, ClientRecv)) ==> Passes(sum, Image(s.machines[m].down[0])))
  {
    var c := Config(machines, thrdpm, CrcOf(sum));
    CrcNeverFails(c, s, m);
    if s.machines[m].up != [] { PassesIfOk(c, sum, s.machines[m].up[0]); }
    if s.machines[m].down != [] { PassesIfOk(c, sum, s.machines[m].down[0]); }
  }

  /** The packets of the protocol are those that `HeartbeatPacket`, `ServerPacket` and
      `ReturnPacket` build, and their bytes pass the check. */
  lemma OnTheWire(machines: nat, thrdpm: nat, sum: Checksum, m: int, seqno: int, p: Packet)
    ensures var c := Config(machines, thrdpm, CrcOf(sum)); var rank := c.SchedRank();
            && Heartbeat(c, m) == Sealed(sum, Msg(m, rank, 0, 0, 0, m))
            && Task(c, m, seqno) == Sealed(sum, Msg(rank, m, seqno, 0, UNDONE, rank))
            && ReplyTo(c, m, p) == Sealed(sum, p.msg.(src := m, dst := rank, rank := m))
            && Passes(sum, Image(Heartbeat(c, m)))
            && Passes(sum, Image(Task(c, m, seqno)))
            && Passes(sum, Image(ReplyTo(c, m, p)))
  {
    var c := Config(machines, thrdpm, CrcOf(sum));
    SealedPasses(sum, Heartbeat(c, m).msg);
    SealedPasses(sum, Task(c, m, seqno).msg);
    SealedPasses(sum, ReplyTo(c, m, p).msg);
  }

  lemma PassesIfOk(c: Config, sum: Checksum, p: Packet)
    requires c.crc == CrcOf(sum)
    ensures CrcOk(c, p) ==> Passes(sum, Image(p))
  {
    CrcRange(sum, p.msg);
    if CrcOk(c, p) { CheckIs(sum, p); }
  }

  // ---------------------------------------------------------------- progress

  ghost function Setup(cl: Client): nat { if cl.Boot? then 3 else if cl.AtBarrier? then 1 else 0 }

  ghost function SetupTotal(ms: seq<Machine>): nat {
    if ms == [] then 0 else Setup(ms[0].client) + SetupTotal(ms[1..])
  }

  ghost function ServerWork(c: Config, server: Server): int {
    match server
    case Waiting(_) => 9 * (c.machines * c.thrdpm) + c.machines + 2
    case Sending(i, j) => 9 * (c.machines * c.thrdpm - i * c.thrdpm - j) + (c.machines - i) + 1
    case Receiving(_) => 0
  }

  /** The number of steps left before the round can end. */
  ghost function Measure(c: Config, s: State): int {
    ServerWork(c, s.server) + Total(s.machines, Stage()) + SetupTotal(s.machines)
  }

  lemma {:induction false} SetupUpdate(ms: seq<Machine>, m: nat, x: Machine)
    requires m < |ms|
    ensures SetupTotal(ms[m := x]) + Setup(ms[m].client) == SetupTotal(ms) + Setup(x.client)
  {
    if m == 0 {
      assert ms[m := x][1..] == ms[1..];
    } else {
      SetupUpdate(ms[1..], m - 1, x);
      assert ms[m := x][1..] == ms[1..][m - 1 := x];
    }
  }

  lemma LocalCounts(c: Config, m: int, mach: Machine, l: LocalStep)
    requires LocalEnabled(mach, l)
    ensures var mach' := LocalDo(c, m, mach, l);
            Weigh(mach', Stage()) + Setup(mach'.client) == Weigh(mach, Stage()) + Setup(mach.client) - 1
  {
    LocalMoves(c, m, mach, l, Stage());
  }

  /** A change of one machine, seen by the measure. */
  lemma MachineMeasure(s: State, m: nat, x: Machine)
    requires m < |s.machines|
    ensures Total(s.machines[m := x], Stage()) + SetupTotal(s.machines[m := x])
            == Total(s.machines, Stage()) + SetupTotal(s.machines)
               + Weigh(x, Stage()) + Setup(x.client) - Weigh(s.machines[m], Stage()) - Setup(s.machines[m].client)
  {
    TotalUpdate(s.machines, m, x, Stage());
    SetupUpdate(s.machines, m, x);
  }

  lemma ServerCounts(c: Config, s: State, step: Step)
    requires Control(c, s) && Enabled(c, s, step)
    requires step.StartRounds? || step.NextMachine? || step.StartReceiving?
    ensures Measure(c, Do(c, s, step)) == Measure(c, s) - 1
  {
    assert 0 * c.thrdpm == 0;
    if step.NextMachine? { assert (s.server.i + 1) * c.thrdpm == s.server.i * c.thrdpm + c.thrdpm; }
  }

  /** Every step of a round, of whichever thread, brings the round one step closer to its end. */
  lemma StepsCount(c: Config, s: State, step: Step)
    requires Control(c, s) && Enabled(c, s, step) && step != EndRound
    ensures Measure(c, Do(c, s, step)) == Measure(c, s) - 1
  {
    var s' := Do(c, s, step);
    match step
    case Local(m, l) =>
      LocalCounts(c, m, s.machines[m], l);
      MachineMeasure(s, m, s'.machines[m]);
    case Hear(m) => MachineMeasure(s, m, s'.machines[m]);
    case Send =>
      var i := s.server.i;
      SumAppend(Down, s.machines[i].down, Task(c, i, s.outmsg), Stage());
      MachineMeasure(s, i, s'.machines[i]);
    case Receive(m) => MachineMeasure(s, m, s'.machines[m]);
    case _ => ServerCounts(c, s, step);
  }

  lemma {:induction false} RoundSteps(c: Config, s: State, steps: seq<Step>)
    requires Inv(c, s) && From(c, s, steps).At? && EndRound !in steps
    ensures Measure(c, From(c, s, steps).s) == Measure(c, s) - |steps|
    decreases |steps|
  {
    if steps == [] {
    } else {
      StepsCount(c, s, steps[0]);
      StepInv(c, s, steps[0]);
      RoundSteps(c, Do(c, s, steps[0]), steps[1..]);
    }
  }

  lemma {:induction false} SetupBound(ms: seq<Machine>)
    requires forall k | 0 <= k < |ms| :: !ms[k].client.Boot?
    ensures SetupTotal(ms) <= |ms|
  {
    if ms == [] {
    } else {
      SetupBound(ms[1..]);
    }
  }

  lemma MeasureNonNegative(c: Config, s: State)
    requires Control(c, s)
    ensures Measure(c, s) >= 0
  {
    if s.server.Sending? { Products(c.machines, c.thrdpm, s.server.i, s.server.j); }
  }

  lemma RoundStartMeasure(c: Config, s: State)
    requires Inv(c, s) && s.server == Sending(0, 0)
    ensures Measure(c, s) <= 9 * (c.machines * c.thrdpm) + 2 * c.machines + 1
  {
    RoundStartEmpty(c, s);
    AllHeard(c, s);
    SetupBound(s.machines);
    assert 0 * c.thrdpm == 0;
  }

  /** No interleaving can make a round longer than 9*machines*thrdpm + 2*machines + 1 steps. */
  lemma RoundLength(c: Config, s: State, steps: seq<Step>)
    requires Reachable(c, s) && s.server == Sending(0, 0)
    requires From(c, s, steps).At? && EndRound !in steps
    ensures |steps| <= 9 * (c.machines * c.thrdpm) + 2 * c.machines + 1
  {
    ReachableInv(c, s);
    RoundSteps(c, s, steps);
    RunInv(c, s, steps);
    RoundStartMeasure(c, s);
    MeasureNonNegative(c, From(c, s, steps).s);
  }

  lemma {:induction false} Products(n: nat, t: nat, i: nat, j: nat)
    requires i <= n && j <= t && (i == n ==> j == 0)
    ensures i * t + j <= n * t
  {
    if i == n {
    } else {
      assert n * t == (n - 1) * t + t;
      if i < n - 1 { Products(n - 1, t, i, j); }
    }
  }

  lemma RoundStartEmpty(c: Config, s: State)
    requires Inv(c, s) && s.server == Sending(0, 0)
    ensures Total(s.machines, Stage()) == 0
  {
    AllHeard(c, s);
    forall m | 0 <= m < c.machines ensures Empty(s.machines[m]) {
      assert Share(c, s, m);
      AtMachineEmpty(c, m, s.machines[m]);
    }
    AllEmptyTotal(s.machines, Stage());
  }

  lemma {:induction false} SomeMachine(ms: seq<Machine>, f: Weight) returns (m: nat)
    requires Total(ms, f) > 0
    ensures m < |ms| && Weigh(ms[m], f) > 0
  {
    if Weigh(ms[0], f) > 0 {
      m := 0;
    } else {
      m := SomeMachine(ms[1..], f);
      m := m + 1;
    }
  }

  lemma MachineProgress(c: Config, m: int, mach: Machine) returns (l: LocalStep)
    requires Shaped(c, m, mach, true) && c.thrdpm > 0
    requires mach.up == [] && Weigh(mach, Tasks()) > 0
    ensures LocalEnabled(mach, l)
  {
    if mach.client.AtBarrier? {
      l := PassBarrier;
    } else if mach.client.HoldNew? {
      l := ClientPut;
    } else if mach.client.HoldDone? {
      l := ClientSend;
    } else if mach.down != [] {
      l := ClientRecv;
    } else if mach.w2s != [] {
      l := ClientPop;
    } else if w :| 0 <= w < |mach.workers| && !mach.workers[w].Idle? {
      l := if mach.workers[w].Got? then WorkerMark(w) else WorkerPut(w);
    } else {
      IdleSum(mach.workers, Tasks());
      l := WorkerGet(0);
    }
  }

  lemma {:induction false} UnheardRank(n: nat, x: set<int>) returns (m: nat)
    requires |x| < n
    ensures m < n && m !in x
  {
    if n - 1 !in x {
      m := n - 1;
    } else {
      m := UnheardRank(n - 1, x - {n - 1});
    }
  }

  lemma SomeStep(c: Config, s: State) returns (step: Step)
    requires Inv(c, s)
    ensures Enabled(c, s, step)
  {
    match s.server
    case Waiting(n) =>
      if n >= c.machines {
        step := StartRounds;
      } else {
        var m := UnheardRank(c.machines, Sources(s.heard));
        step := if s.machines[m].client.Boot? then Local(m, SendHeartbeat) else Hear(m);
      }
    case Sending(i, j) =>
      step := if i >= c.machines then StartReceiving else if j < c.thrdpm then Send else NextMachine;
    case Receiving(k) =>
      if k >= c.machines * c.thrdpm {
        step := EndRound;
      } else {
        var m := SomeMachine(s.machines, Tasks());
        AllHeard(c, s);
        assert Share(c, s, m);
        if s.machines[m].up != [] {
          step := Receive(m);
        } else {
          var l := MachineProgress(c, m, s.machines[m]);
          step := Local(m, l);
        }
      }
  }

  /** No reachable state is a deadlock, and while a task is outstanding the step that some
      thread can take is one that the measure counts. */
  lemma NoDeadlock(c: Config, s: State) returns (step: Step)
    requires Reachable(c, s)
    ensures Enabled(c, s, step)
    ensures s.inmsg < s.outmsg ==> step != EndRound && Measure(c, Do(c, s, step)) < Measure(c, s)
  {
    ReachableInv(c, s);
    step := SomeStep(c, s);
    if step != EndRound { StepsCount(c, s, step); }
  }

  /** From every reachable state the current round can be finished, and by `RoundLength` every
      way of going on finishes it. */
  lemma {:induction false} RoundFinishes(c: Config, s: State) returns (steps: seq<Step>)
    requires Inv(c, s)
    ensures From(c, s, steps).At? && EndRound !in steps
    ensures Enabled(c, From(c, s, steps).s, EndRound)
    decreases Measure(c, s)
  {
    var step := SomeStep(c, s);
    if step == EndRound {
      steps := [];
    } else {
      StepsCount(c, s, step);
      StepInv(c, s, step);
      MeasureNonNegative(c, s);
      var rest := RoundFinishes(c, Do(c, s, step));
      steps := [step] + rest;
      assert steps[1..] == rest;
    }
  }
}
