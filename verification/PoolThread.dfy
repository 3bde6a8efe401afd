/**
 One thread pair of the thread pool of socket/src/threadpool.cpp: the writer that takes messages
 from its queue and writes frames to its sockets, and the reader that closes the same sockets when
 its pipe is closed.  Every pop, every write(2) and every close is a step of its own.
 */
module PoolThread {
  import opened Addressing
  import opened Framing
  import opened Words

  /** The message a writer is at, the slot it writes to, the slot where it ends, and how much of the
      frame is on that slot's wire. */
  datatype Hand = Free | Writing(payload: Payload, sock: int, idx: nat, end: nat, off: nat)

  /** What has become of a connection: no write has failed, or one was refused because the reader had
      closed the socket, or one failed for another reason. */
  datatype Fate = Intact | Cut | Faulty

  /** `pipe`: the caller has closed the reader's pipe; `closed`: how many sockets the reader has
      closed.  `done` is history: the messages the writer has finished. */
  datatype Thr = Thr(
    socks: seq<int>, msgq: seq<Msg>, hand: Hand, exited: bool, pipe: bool, closed: nat,
    wires: seq<seq<byte>>, fates: seq<Fate>, done: seq<Msg>)

  /** `Refused` is a write to a closed socket, `Fault` any other failing write; `writen` gives up at
      both, and its result is ignored. */
  datatype Step = Take | Write(n: nat) | Refused | Fault | Next | Finish | Close

  const IDLE := Thr([], [], Free, false, false, 0, [], [], [])

  function InHand(hand: Hand): (ms: seq<Msg>) {
    if hand.Free? then [] else [WriteMsg(hand.payload, hand.sock)]
  }

  /** Everything that was ever pushed, in order. */
  function Pushed(x: Thr): (ms: seq<Msg>) { x.done + InHand(x.hand) + x.msgq }

  /** The writer is at a frame that is not yet written. */
  predicate Busy(hand: Hand) { hand.Writing? && hand.idx < hand.end && hand.off < |Sent(hand.payload)| }

  predicate Enabled(x: Thr, step: Step) {
    match step
    case Take => x.hand.Free? && !x.exited && x.msgq != []
    case Write(n) => Busy(x.hand) && x.hand.idx >= x.closed && 0 < n <= |Sent(x.hand.payload)| - x.hand.off
    case Refused => Busy(x.hand) && x.hand.idx < x.closed
    case Fault => Busy(x.hand) && x.hand.idx >= x.closed
    case Next => x.hand.Writing? && x.hand.idx < x.hand.end && x.hand.off == |Sent(x.hand.payload)|
    case Finish => x.hand.Writing? && x.hand.idx >= x.hand.end
    case Close => x.pipe && x.closed < |x.socks|
  }

  function HandOf(p: Payload, sock: int, slots: nat): (hand: Hand) {
    if sock < 0 then Writing(p, sock, 0, slots, 0) else Writing(p, sock, sock, sock + 1, 0)
  }

  function Skip(hand: Hand): (r: Hand)
    requires hand.Writing?
  {
    hand.(idx := hand.idx + 1, off := 0)
  }

  function Do(x: Thr, step: Step): (r: Thr)
    requires Enabled(x, step) && Shape(x)
  {
    match step
    case Take =>
      match x.msgq[0] {
        case ExitMsg => x.(msgq := x.msgq[1..], exited := true, done := x.done + [ExitMsg])
        case WriteMsg(p, sock) => x.(msgq := x.msgq[1..], hand := HandOf(p, sock, |x.socks|))
      }
    case Write(n) =>
      var i, off := x.hand.idx, x.hand.off;
      x.(wires := x.wires[i := x.wires[i] + Sent(x.hand.payload)[off..off + n]], hand := x.hand.(off := off + n))
    case Refused =>
      var i := x.hand.idx;
      x.(fates := x.fates[i := if x.fates[i] == Faulty then Faulty else Cut], hand := Skip(x.hand))
    case Fault => x.(fates := x.fates[x.hand.idx := Faulty], hand := Skip(x.hand))
    case Next => x.(hand := Skip(x.hand))
    case Finish => x.(hand := Free, done := x.done + InHand(x.hand))
    case Close => x.(closed := x.closed + 1)
  }

  // ---------------------------------------------------------------- invariant

  predicate InSlots(m: Msg, n: nat) { m.WriteMsg? ==> m.sock < n }

  predicate HandShape(hand: Hand, slots: nat) {
    hand.Writing? ==>
      && hand.idx <= hand.end <= slots && hand.off <= |Sent(hand.payload)| && (hand.idx == hand.end ==> hand.off == 0)
      && (if hand.sock < 0 then hand.end == slots else hand.end == hand.sock + 1 && hand.sock <= hand.idx)
  }

  predicate Shape(x: Thr) {
    && |x.wires| == |x.fates| == |x.socks| && x.closed <= |x.socks|
    && HandShape(x.hand, |x.socks|)
    && forall i | 0 <= i < |x.msgq| :: InSlots(x.msgq[i], |x.socks|)
  }

  /** The messages with which the writer is through at a slot. */
  function Through(hand: Hand, done: seq<Msg>, slot: nat): (ms: seq<Msg>) {
    if hand.Writing? && slot < hand.idx then done + InHand(hand) else done
  }

  /** The part of a frame that is on the wire of a slot. */
  function Partial(hand: Hand, slot: nat): (bytes: seq<byte>)
    requires hand.Writing? ==> hand.off <= |Sent(hand.payload)|
  {
    if hand.Writing? && slot == hand.idx then Sent(hand.payload)[..hand.off] else []
  }

  /** The wire of a slot against what should be on it: `due` of finished messages and `part` of the
      frame in hand.  A connection that was cut has a proper prefix of that. */
  predicate Sound(wire: seq<byte>, fate: Fate, shut: bool, due: seq<byte>, part: seq<byte>) {
    match fate
    case Intact => wire == due + part
    case Cut => shut && part == [] && wire <= due && |wire| < |due|
    case Faulty => |wire| < |due| + |part|
  }

  ghost predicate SlotOk(x: Thr, slot: nat)
    requires Shape(x) && slot < |x.socks|
  {
    Sound(x.wires[slot], x.fates[slot], slot < x.closed, Due(Through(x.hand, x.done, slot), slot),
          Partial(x.hand, slot))
  }

  ghost predicate Ok(x: Thr) {
    && Shape(x) && (x.closed > 0 ==> x.pipe)
    && (x.exited <==> ExitMsg in x.done) && (x.exited ==> x.hand.Free?)
    && forall slot: nat | slot < |x.socks| :: SlotOk(x, slot)
  }

  lemma TakeOk(x: Thr)
    requires Ok(x) && Enabled(x, Take)
    ensures Ok(Do(x, Take)) && Pushed(Do(x, Take)) == Pushed(x)
  {
    var y, m := Do(x, Take), x.msgq[0];
    assert InSlots(m, |x.socks|);
    forall slot: nat | slot < |x.socks| ensures SlotOk(y, slot) {
      assert SlotOk(x, slot);
      TakeSlot(x.done, m, |x.socks|, slot);
    }
    assert Shape(y) by { forall i | 0 <= i < |y.msgq| ensures InSlots(y.msgq[i], |y.socks|) { assert InSlots(x.msgq[i + 1], |x.socks|); } }
    TakePushed(x);
  }

  lemma TakePushed(x: Thr)
    requires Shape(x) && Enabled(x, Take)
    ensures Pushed(Do(x, Take)) == Pushed(x)
  {
    var y, m := Do(x, Take), x.msgq[0];
    Regroup(x.done, m, x.msgq[1..]);
    assert x.msgq == [m] + x.msgq[1..];
    assert m.WriteMsg? ==> InHand(y.hand) == [m];
  }

  lemma Regroup(done: seq<Msg>, m: Msg, rest: seq<Msg>)
    ensures done + [] + ([m] + rest) == done + [m] + rest == done + [m] + [] + rest
  {
  }

  /** Taking a message puts nothing on any wire. */
  lemma TakeSlot(done: seq<Msg>, m: Msg, slots: nat, slot: nat)
    ensures m.ExitMsg? ==> Due(done + [m], slot) == Due(done, slot)
    ensures m.WriteMsg? ==>
              var hand := HandOf(m.payload, m.sock, slots);
              Due(Through(hand, done, slot), slot) == Due(done, slot) && Partial(hand, slot) == []
  {
    DueAppend(done, m, slot);
    if m.WriteMsg? {
      NothingYet(m.payload, m.sock, slots, done, slot);
    } else {
      assert Due(done, slot) + [] == Due(done, slot);
    }
  }

  lemma NothingYet(p: Payload, sock: int, slots: nat, done: seq<Msg>, slot: nat)
    ensures var hand := HandOf(p, sock, slots);
            Due(Through(hand, done, slot), slot) == Due(done, slot) && Partial(hand, slot) == []
  {
    DueAppend(done, WriteMsg(p, sock), slot);
    assert InHand(HandOf(p, sock, slots)) == [WriteMsg(p, sock)];
    assert Due(done, slot) + [] == Due(done, slot);
  }

  lemma WriteOk(x: Thr, n: nat)
    requires Ok(x) && Enabled(x, Write(n))
    ensures Ok(Do(x, Write(n))) && Pushed(Do(x, Write(n))) == Pushed(x)
  {
    var y := Do(x, Write(n));
    var off := x.hand.off;
    assert InHand(y.hand) == InHand(x.hand);
    forall slot: nat | slot < |x.socks| ensures SlotOk(y, slot) {
      assert SlotOk(x, slot);
      assert Through(y.hand, y.done, slot) == Through(x.hand, x.done, slot);
      if slot == x.hand.idx {
        Grown(x.wires[slot], x.fates[slot], Due(Through(x.hand, x.done, slot), slot), Sent(x.hand.payload), off, n);
      }
    }
  }

  lemma Grown(wire: seq<byte>, fate: Fate, due: seq<byte>, frame: seq<byte>, off: nat, n: nat)
    requires off + n <= |frame| && Sound(wire, fate, false, due, frame[..off])
    ensures Sound(wire + frame[off..off + n], fate, false, due, frame[..off + n])
  {
    assert frame[..off + n] == frame[..off] + frame[off..off + n];
  }

  /** The step to the next slot, whether the frame was written, cut or lost. */
  lemma SkipOk(x: Thr, fate: Fate)
    requires Ok(x) && x.hand.Writing? && x.hand.idx < x.hand.end
    requires Left(x.fates[x.hand.idx], x.hand.idx < x.closed, |Sent(x.hand.payload)| - x.hand.off, fate)
    ensures var y := x.(fates := x.fates[x.hand.idx := fate], hand := Skip(x.hand));
            Ok(y) && Pushed(y) == Pushed(x)
  {
    var y := x.(fates := x.fates[x.hand.idx := fate], hand := Skip(x.hand));
    assert InHand(y.hand) == InHand(x.hand) == [WriteMsg(x.hand.payload, x.hand.sock)];
    forall slot: nat | slot < |x.socks| ensures SlotOk(y, slot) {
      assert SlotOk(x, slot);
      if slot == x.hand.idx {
        DueAppend(x.done, WriteMsg(x.hand.payload, x.hand.sock), slot);
        Passed(x.wires[slot], x.fates[slot], slot < x.closed, Due(x.done, slot), Sent(x.hand.payload), x.hand.off, fate);
      } else {
        assert Through(y.hand, y.done, slot) == Through(x.hand, x.done, slot);
      }
    }
  }

  /** The fate of a connection after a frame of which `rest` bytes were not written. */
  predicate Left(was: Fate, shut: bool, rest: int, fate: Fate) {
    if rest == 0 then fate == was
    else if shut then fate == (if was == Faulty then Faulty else Cut)
    else fate == Faulty
  }

  lemma Passed(wire: seq<byte>, was: Fate, shut: bool, due: seq<byte>, frame: seq<byte>, off: nat, fate: Fate)
    requires off <= |frame| && Sound(wire, was, shut, due, frame[..off]) && Left(was, shut, |frame| - off, fate)
    ensures Sound(wire, fate, shut, due + frame, [])
  {
    if off == |frame| { assert frame[..off] == frame; }
    assert due + frame[..off] <= due + frame;
    assert due + frame + [] == due + frame;
  }

  lemma FinishOk(x: Thr)
    requires Ok(x) && Enabled(x, Finish)
    ensures Ok(Do(x, Finish)) && Pushed(Do(x, Finish)) == Pushed(x)
  {
    var y := Do(x, Finish);
    forall slot: nat | slot < |x.socks| ensures SlotOk(y, slot) {
      assert SlotOk(x, slot);
      DueAppend(x.done, WriteMsg(x.hand.payload, x.hand.sock), slot);
      assert Partial(x.hand, slot) == [];
      if slot >= x.hand.idx { assert Due(x.done, slot) + [] == Due(x.done, slot); }
    }
  }

  lemma CloseOk(x: Thr)
    requires Ok(x) && Enabled(x, Close)
    ensures Ok(Do(x, Close)) && Pushed(Do(x, Close)) == Pushed(x)
  {
    forall slot: nat | slot < |x.socks| ensures SlotOk(Do(x, Close), slot) { assert SlotOk(x, slot); }
  }

  /** Every step keeps every connection sound and loses no message. */
  lemma StepOk(x: Thr, step: Step)
    requires Ok(x) && Enabled(x, step)
    ensures Ok(Do(x, step)) && Pushed(Do(x, step)) == Pushed(x)
  {
    match step
    case Take => TakeOk(x);
    case Write(n) => WriteOk(x, n);
    case Refused => SkipOk(x, if x.fates[x.hand.idx] == Faulty then Faulty else Cut);
    case Fault => SkipOk(x, Faulty);
    case Next =>
      SkipOk(x, x.fates[x.hand.idx]);
      assert x.fates[x.hand.idx := x.fates[x.hand.idx]] == x.fates;
    case Finish => FinishOk(x);
    case Close => CloseOk(x);
  }

  // ---------------------------------------------------------------- runs

  datatype Outcome = Stuck | At(x: Thr)

  function Run(x: Thr, steps: seq<Step>): (o: Outcome)
    decreases |steps|
  {
    if steps == [] then At(x)
    else if Shape(x) && Enabled(x, steps[0]) then Run(Do(x, steps[0]), steps[1..])
    else Stuck
  }

  /** y may follow x while the caller does nothing. */
  ghost predicate Reaches(x: Thr, y: Thr) { exists steps :: Run(x, steps) == At(y) }

  lemma {:induction false} RunConcat(x: Thr, a: seq<Step>, b: seq<Step>)
    requires Run(x, a).At?
    ensures Run(x, a + b) == Run(Run(x, a).x, b)
    decreases |a|
  {
    if a == [] {
      assert a + b == b;
    } else {
      RunConcat(Do(x, a[0]), a[1..], b);
      assert (a + b)[1..] == a[1..] + b;
    }
  }

  lemma ReachesNext(x: Thr, y: Thr, step: Step)
    requires Reaches(x, y) && Shape(y) && Enabled(y, step)
    ensures Reaches(x, Do(y, step))
  {
    var steps :| Run(x, steps) == At(y);
    var last := [step];
    assert last[1..] == [];
    assert Run(y, last) == At(Do(y, step));
    RunConcat(x, steps, last);
  }

  lemma ReachesSelf(x: Thr)
    ensures Reaches(x, x)
  {
    assert Run(x, []) == At(x);
  }

  /** The slots and the bytes left for the message in hand. */
  function SlotsLeft(hand: Hand): (n: nat) { if hand.Writing? && hand.idx <= hand.end then 1 + hand.end - hand.idx else 0 }

  function BytesLeft(hand: Hand): (n: nat) {
    if hand.Writing? && hand.off <= |Sent(hand.payload)| then |Sent(hand.payload)| - hand.off else 0
  }

  /** The writer has less to do at y than at x. */
  predicate Less(y: Thr, x: Thr) {
    || |y.msgq| < |x.msgq|
    || (|y.msgq| == |x.msgq| && SlotsLeft(y.hand) < SlotsLeft(x.hand))
    || (|y.msgq| == |x.msgq| && SlotsLeft(y.hand) == SlotsLeft(x.hand) && BytesLeft(y.hand) < BytesLeft(x.hand))
  }

  predicate AsMuch(y: Thr, x: Thr) {
    |y.msgq| == |x.msgq| && SlotsLeft(y.hand) == SlotsLeft(x.hand) && BytesLeft(y.hand) == BytesLeft(x.hand)
  }

  /** What every run keeps: bytes on a wire stay there, no message is lost, no thread comes back,
      and the writer has no more to do than before. */
  ghost predicate Later(x: Thr, y: Thr) {
    && Ok(y) && Pushed(y) == Pushed(x)
    && y.socks == x.socks && y.pipe == x.pipe && x.closed <= y.closed && (x.exited ==> y.exited)
    && |y.wires| == |x.wires| && (forall i | 0 <= i < |x.wires| :: x.wires[i] <= y.wires[i])
    && (Less(y, x) || AsMuch(y, x))
  }

  lemma StepLater(x: Thr, step: Step)
    requires Ok(x) && Enabled(x, step)
    ensures Later(x, Do(x, step))
    ensures step != Close ==> Less(Do(x, step), x)
  {
    StepOk(x, step);
    StepGrows(x, step);
    StepLess(x, step);
  }

  lemma StepGrows(x: Thr, step: Step)
    requires Shape(x) && Enabled(x, step)
    ensures var y := Do(x, step);
            && y.socks == x.socks && y.pipe == x.pipe && x.closed <= y.closed && (x.exited ==> y.exited)
            && |y.wires| == |x.wires| && forall i | 0 <= i < |x.wires| :: x.wires[i] <= y.wires[i]
  {
  }

  lemma StepLess(x: Thr, step: Step)
    requires Shape(x) && Enabled(x, step)
    ensures if step == Close then AsMuch(Do(x, step), x) else Less(Do(x, step), x)
  {
  }

  lemma {:induction false} RunLater(x: Thr, steps: seq<Step>)
    requires Ok(x) && Run(x, steps).At?
    ensures Later(x, Run(x, steps).x)
    decreases |steps|
  {
    if steps == [] {
    } else {
      var y := Do(x, steps[0]);
      StepLater(x, steps[0]);
      RunLater(y, steps[1..]);
      LaterThen(x, y, Run(x, steps).x);
    }
  }

  lemma LaterThen(x: Thr, y: Thr, z: Thr)
    requires Later(x, y) && Later(y, z)
    ensures Later(x, z)
  {
  }

  lemma ReachesLater(x: Thr, y: Thr)
    requires Ok(x) && Reaches(x, y)
    ensures Later(x, y)
  {
    var steps :| Run(x, steps) == At(y);
    RunLater(x, steps);
  }

  // ---------------------------------------------------------------- what is on the wires

  /** At every moment a wire holds part of what was pushed for it, in order, unless a write failed
      for another reason than the reader's close; and it holds all of it only if no write failed. */
  lemma WireIs(x: Thr, slot: nat)
    requires Ok(x) && slot < |x.socks|
    ensures var due := Due(Pushed(x), slot);
            && |x.wires[slot]| <= |due|
            && (x.fates[slot] != Faulty ==> x.wires[slot] <= due)
            && (x.fates[slot] != Intact ==> |x.wires[slot]| < |due|)
  {
    assert SlotOk(x, slot);
    var ms := Through(x.hand, x.done, slot);
    if x.hand.Writing? && slot == x.hand.idx {
      var m := WriteMsg(x.hand.payload, x.hand.sock);
      if x.hand.off > 0 {
        assert IsFor(m, slot);
        DueAppend(x.done, m, slot);
        assert x.done + [m] <= Pushed(x);
        DuePrefix(x.done + [m], Pushed(x), slot);
      } else {
        assert Partial(x.hand, slot) == [];
        assert ms <= Pushed(x);
        DuePrefix(ms, Pushed(x), slot);
      }
    } else {
      assert ms <= Pushed(x);
      DuePrefix(ms, Pushed(x), slot);
    }
  }

  /** Once the writer is through, a wire holds everything exactly if no write failed. */
  lemma WireEnds(x: Thr, slot: nat)
    requires Ok(x) && slot < |x.socks| && x.hand.Free? && x.msgq == []
    ensures x.wires[slot] == Due(Pushed(x), slot) <==> x.fates[slot] == Intact
  {
    WireIs(x, slot);
    assert SlotOk(x, slot);
    assert Pushed(x) == x.done;
    assert Due(x.done, slot) + [] == Due(x.done, slot);
  }

  // ---------------------------------------------------------------- stop_all

  /** `stop_all` pushes an EXIT and closes the reader's pipe in the same turn of its loop. */
  function Stopped(x: Thr): (r: Thr) { x.(msgq := x.msgq + [ExitMsg], pipe := true) }

  /** The writer has not been told to exit. */
  predicate Running(x: Thr) { ExitMsg !in Pushed(x) }

  lemma StoppedOk(x: Thr, slot: nat)
    requires Ok(x) && Running(x)
    ensures Ok(Stopped(x)) && Pushed(Stopped(x)) == Pushed(x) + [ExitMsg] && !x.exited
    ensures Due(Pushed(Stopped(x)), slot) == Due(Pushed(x), slot)
  {
    assert forall i | 0 <= i < |x.done| :: Pushed(x)[i] == x.done[i];
    assert Pushed(Stopped(x)) == Pushed(x) + [ExitMsg];
    DueAppend(Pushed(x), ExitMsg, slot);
    assert Due(Pushed(x), slot) + [] == Due(Pushed(x), slot);
    forall slot: nat | slot < |x.socks| ensures SlotOk(Stopped(x), slot) { assert SlotOk(x, slot); }
  }

  /** The writer exits and connection `slot` is intact, in every run after `stop_all` in which no
      write fails for another reason than the reader's close. */
  ghost predicate StopKeeps(x: Thr, slot: nat) {
    forall steps | Exits(x, steps) :: IntactAfter(x, steps, slot)
  }

  predicate Exits(x: Thr, steps: seq<Step>) {
    Fault !in steps && Run(Stopped(x), steps).At? && Run(Stopped(x), steps).x.exited
  }

  predicate IntactAfter(x: Thr, steps: seq<Step>, slot: nat)
    requires Exits(x, steps)
  {
    var y := Run(Stopped(x), steps).x;
    slot < |y.fates| && y.fates[slot] == Intact
  }

  /** `stop_all` is sure to keep a connection intact if and only if everything for it is on the
      wire when `stop_all` is called: otherwise the reader may close the socket first. */
  lemma StopKeepsIff(x: Thr, slot: nat)
    requires Ok(x) && Running(x) && slot < |x.socks| && x.fates[slot] == Intact
    ensures StopKeeps(x, slot) <==> x.wires[slot] == Due(Pushed(x), slot)
  {
    if x.wires[slot] == Due(Pushed(x), slot) {
      forall steps | Exits(x, steps) ensures IntactAfter(x, steps, slot) { KeptWhole(x, steps, slot); }
    } else {
      var steps := LosingRun(x, slot);
      assert Exits(x, steps) && !IntactAfter(x, steps, slot);
    }
  }

  lemma KeptWhole(x: Thr, steps: seq<Step>, slot: nat)
    requires Ok(x) && Running(x) && slot < |x.socks| && Exits(x, steps)
    requires x.wires[slot] == Due(Pushed(x), slot)
    ensures IntactAfter(x, steps, slot)
  {
    StoppedOk(x, slot);
    RunLater(Stopped(x), steps);
    WireIs(Run(Stopped(x), steps).x, slot);
  }

  /** First the reader closes every socket, then the writer runs to its end. */
  lemma LosingRun(x: Thr, slot: nat) returns (steps: seq<Step>)
    requires Ok(x) && Running(x) && slot < |x.socks|
    requires x.wires[slot] != Due(Pushed(x), slot)
    ensures Exits(x, steps) && !IntactAfter(x, steps, slot)
  {
    StoppedOk(x, slot);
    steps := IdleRun(Stopped(x));
    RunLater(Stopped(x), steps);
    NotIntact(Run(Stopped(x), steps).x, Pushed(x), slot);
  }

  /** A run to the writer's end in which nothing is written. */
  lemma IdleRun(x: Thr) returns (steps: seq<Step>)
    requires Ok(x) && x.pipe && !x.exited && x.msgq != [] && x.msgq[|x.msgq| - 1] == ExitMsg
    ensures Run(x, steps).At? && Run(x, steps).x.exited && Run(x, steps).x.wires == x.wires && Fault !in steps
  {
    var a := CloseAll(x);
    RunLater(x, a);
    var b := Drain(x.(closed := |x.socks|));
    RunConcat(x, a, b);
    steps := a + b;
  }

  /** The writer has exited, and a wire does not hold everything. */
  lemma NotIntact(z: Thr, ms: seq<Msg>, slot: nat)
    requires Ok(z) && z.exited && slot < |z.socks|
    requires Pushed(z) == ms + [ExitMsg] && ExitMsg !in ms
    requires z.wires[slot] != Due(Pushed(z), slot)
    ensures z.fates[slot] != Intact
  {
    assert z.done + z.msgq == ms + [ExitMsg];
    LastExit(z.done, z.msgq, ms);
    WireEnds(z, slot);
  }

  lemma {:induction false} CloseAll(x: Thr) returns (steps: seq<Step>)
    requires Ok(x) && x.pipe
    ensures Run(x, steps) == At(x.(closed := |x.socks|)) && Fault !in steps
    decreases |x.socks| - x.closed
  {
    if x.closed == |x.socks| {
      steps := [];
    } else {
      CloseOk(x);
      var rest := CloseAll(Do(x, Close));
      steps := [Close] + rest;
      assert steps[1..] == rest;
    }
  }

  /** What the writer does when every socket is closed. */
  function WriterStep(x: Thr): (step: Step) {
    if x.hand.Free? then Take
    else if x.hand.idx >= x.hand.end then Finish
    else if x.hand.off == |Sent(x.hand.payload)| then Next
    else Refused
  }

  lemma {:induction false} Drain(x: Thr) returns (steps: seq<Step>)
    requires Ok(x) && x.closed == |x.socks| && ExitMsg in x.msgq && !x.exited
    ensures Run(x, steps).At? && Run(x, steps).x.exited && Run(x, steps).x.wires == x.wires && Fault !in steps
    decreases |x.msgq|, SlotsLeft(x.hand), BytesLeft(x.hand)
  {
    var step := WriterStep(x);
    StepLater(x, step);
    var y := Do(x, step);
    var rest: seq<Step> := [];
    if !y.exited {
      assert ExitMsg in y.msgq by { assert x.msgq == [x.msgq[0]] + x.msgq[1..]; }
      rest := Drain(y);
    }
    steps := [step] + rest;
    assert steps[1..] == rest;
  }

  /** One connection, one message, and a reader that is quicker than the writer: the message is
      lost. */
  lemma StopLoses(sock: int, p: Payload)
    requires Sent(p) != []
    ensures var x := IDLE.(socks := [sock], wires := [[]], fates := [Intact], msgq := [WriteMsg(p, 0)]);
            var o := Run(Stopped(x), [Close, Take, Refused, Finish, Take]);
            o.At? && o.x.exited && o.x.wires == [[]] && Due(Pushed(x), 0) == Sent(p)
  {
    var x := IDLE.(socks := [sock], wires := [[]], fates := [Intact], msgq := [WriteMsg(p, 0)]);
    var x0 := Stopped(x);
    var x1 := Do(x0, Close);
    var x2 := Do(x1, Take);
    var x3 := Do(x2, Refused);
    var x4 := Do(x3, Finish);
    assert Run(x4, [Take]).At? && [Take][1..] == [];
    assert [Finish, Take][1..] == [Take];
    assert [Refused, Finish, Take][1..] == [Finish, Take];
    assert [Take, Refused, Finish, Take][1..] == [Refused, Finish, Take];
    assert [Close, Take, Refused, Finish, Take][1..] == [Take, Refused, Finish, Take];
    assert Pushed(x) == [] + [WriteMsg(p, 0)];
    DueAppend([], WriteMsg(p, 0), 0);
  }

  // ---------------------------------------------------------------- in the source's form

  lemma PushOk(x: Thr, m: Msg)
    requires Ok(x) && InSlots(m, |x.socks|)
    ensures var y := x.(msgq := x.msgq + [m]); Ok(y) && Pushed(y) == Pushed(x) + [m]
  {
    forall slot: nat | slot < |x.socks| ensures SlotOk(x.(msgq := x.msgq + [m]), slot) { assert SlotOk(x, slot); }
  }

  lemma PipeOk(x: Thr)
    requires Ok(x)
    ensures Ok(x.(pipe := true)) && Pushed(x.(pipe := true)) == Pushed(x)
  {
    forall slot: nat | slot < |x.socks| ensures SlotOk(x.(pipe := true), slot) { assert SlotOk(x, slot); }
  }

  function Added(x: Thr, sock: int): (r: Thr) {
    x.(socks := x.socks + [sock], wires := x.wires + [[]], fates := x.fates + [Intact])
  }

  lemma AddedOk(x: Thr, sock: int)
    requires Ok(x) && Pushed(x) == []
    ensures Ok(Added(x, sock)) && Pushed(Added(x, sock)) == []
  {
    assert x.done == [] && x.hand == Free && x.msgq == [];
    var y := Added(x, sock);
    forall slot: nat | slot < |y.socks| ensures SlotOk(y, slot) {
      if slot < |x.socks| { assert SlotOk(x, slot); }
    }
  }

  /** `tcpthrinfo_t`, the two threads that work on it, and what they have put on the wires. */
  class ThrInfo {
    const maxSocks: nat
    var socks: seq<int>
    var msgq: seq<Msg>
    var hand: Hand
    var exited: bool
    var pipe: bool
    var closed: nat
    var wires: seq<seq<byte>>
    var fates: seq<Fate>
    ghost var done: seq<Msg>

    ghost function View(): Thr
      reads this
    {
      Thr(socks, msgq, hand, exited, pipe, closed, wires, fates, done)
    }

    ghost predicate Valid()
      reads this
    {
      Ok(View()) && |socks| <= maxSocks
    }

    constructor (maxSocks: nat)
      ensures View() == IDLE && this.maxSocks == maxSocks
    {
      this.maxSocks := maxSocks;
      socks, msgq, hand, exited, pipe, closed, wires, fates := [], [], Free, false, false, 0, [], [];
      done := [];
    }

    /** `tcpthrinfo_t::add_conn` */
    method AddSock(sock: int)
      requires Valid() && Pushed(View()) == [] && |socks| < maxSocks
      modifies this`socks, this`wires, this`fates
      ensures Valid() && View() == Added(old(View()), sock)
    {
      AddedOk(View(), sock);
      socks, wires, fates := socks + [sock], wires + [[]], fates + [Intact];
    }

    method Push(m: Msg)
      requires Valid() && InSlots(m, |socks|)
      modifies this`msgq
      ensures Valid() && View() == old(View()).(msgq := old(msgq) + [m])
    {
      PushOk(View(), m);
      msgq := msgq + [m];
    }

    /** The caller closes the other end of the reader's pipe. */
    method ClosePipe()
      requires Valid()
      modifies this`pipe
      ensures Valid() && View() == old(View()).(pipe := true)
    {
      PipeOk(View());
      pipe := true;
    }

    predicate CanStep()
      reads this
    {
      hand.Writing? || (!exited && msgq != [])
    }

    /** The next step of `start_send`: a pop, one write(2) of the loop of `writen`, or the end of
        such a loop. */
    method StepWriter() returns (ghost step: Step)
      requires Valid() && CanStep()
      modifies this`msgq, this`hand, this`exited, this`wires, this`fates, this`done
      ensures step != Close && Enabled(old(View()), step) && View() == Do(old(View()), step)
    {
      if hand.Free? {
        step := Take;
        var m := msgq[0];
        msgq := msgq[1..];
        match m {
          case ExitMsg => done, exited := done + [ExitMsg], true;
          case WriteMsg(payload, sock) => hand := HandOf(payload, sock, |socks|);
        }
      } else if hand.idx >= hand.end {
        step := Finish;
        done, hand := done + InHand(hand), Free;
      } else if hand.off == |Sent(hand.payload)| {
        step := Next;
        hand := Skip(hand);
      } else {
        step := WriteOnce();
      }
    }

    /** One write(2): some of the rest of the frame, or an error. */
    method WriteOnce() returns (ghost step: Step)
      requires Valid() && Busy(hand)
      modifies this`hand, this`wires, this`fates
      ensures step != Close && Enabled(old(View()), step) && View() == Do(old(View()), step)
    {
      var i, frame := hand.idx, Sent(hand.payload);
      var n: int := *;
      if i < closed {
        step := Refused;
        fates := fates[i := if fates[i] == Faulty then Faulty else Cut];
        hand := Skip(hand);
      } else if 0 < n <= |frame| - hand.off {
        step := Write(n);
        wires := wires[i := wires[i] + frame[hand.off..hand.off + n]];
        hand := hand.(off := hand.off + n);
      } else {
        step := Fault;
        fates := fates[i := Faulty];
        hand := Skip(hand);
      }
    }

    /** The next step of `start_read` once its pipe is closed. */
    method StepReader()
      requires Valid() && pipe && closed < |socks|
      modifies this`closed
      ensures Enabled(old(View()), Close) && View() == Do(old(View()), Close)
    {
      closed := closed + 1;
    }
  }
}
