/**
 Length-prefixed frames over a byte stream: socket/src/util.cpp, the framing constructor of
 socket/src/threadpool.hpp, and tcp_read and tcp_write of socket/src/tcp_comm.cpp.
 */
module Framing {
  import opened Words

  /** Bytes whose number fits a dsize_t. */
  type Payload = p: seq<byte> | |p| < WORD

  function Frame(p: seq<byte>): (f: seq<byte>)
    requires |p| < WORD
  {
    Bytes4(|p|) + p
  }

  /** A frame is the length in four bytes, the lowest first, and the payload. */
  lemma FrameIs(p: seq<byte>)
    requires |p| < 0x1_0000_0000
    ensures var f := Frame(p);
            && |f| == 4 + |p| && (forall i | 0 <= i < |p| :: f[4 + i] == p[i])
            && |p| == f[0] as int + 0x100 * (f[1] as int) + 0x1_0000 * (f[2] as int) + 0x100_0000 * (f[3] as int)
  {
    BytesAre(|p|);
  }

  predicate Sendable(ps: seq<seq<byte>>) { forall k | 0 <= k < |ps| :: |ps[k]| < INT_LIMIT }

  predicate Sized(ps: seq<seq<byte>>) { forall k | 0 <= k < |ps| :: |ps[k]| < WORD }

  function Frames(ps: seq<seq<byte>>): (bytes: seq<byte>)
    requires Sized(ps)
  {
    if ps == [] then [] else Frame(ps[0]) + Frames(ps[1..])
  }

  lemma {:induction false} FramesAppend(ps: seq<seq<byte>>, p: seq<byte>)
    requires Sized(ps) && |p| < WORD
    ensures Sized(ps + [p]) && Frames(ps + [p]) == Frames(ps) + Frame(p)
  {
    if ps == [] {
      assert ps + [p] == [p];
      assert Frames([p]) == Frame(p) + Frames([p][1..]);
    } else {
      FramesAppend(ps[1..], p);
      assert (ps + [p])[1..] == ps[1..] + [p];
    }
  }

  // ---------------------------------------------------------------- what tcp_read returns

  /** `Closed`: the first read finds the end of the stream.  `Hang`: the stream ends inside a
      header or inside a payload, and the loop of `readn` never ends.  Otherwise the int that is returned, the
      bytes put into the buffer, and the bytes left on the stream. */
  datatype Parse = Closed | Hang | Got(ret: int, payload: seq<byte>, rest: seq<byte>)

  function ParseFrame(bytes: seq<byte>): (r: Parse)
    ensures r.Got? ==> |r.rest| < |bytes|
  {
    if bytes == [] then Closed
    else if |bytes| < 4 then Hang
    else
      var n := Value4(bytes[..4]);
      var rest := bytes[4..];
      if n == 0 || rest == [] then Got(0, [], rest)
      else if |rest| < n then Hang
      else Got(ToInt32(n), rest[..n], rest[n..])
  }

  datatype End = AtClose | AtHang | AtAssert | AtOverrun

  /** What the callback of `start_read` sees on one connection, and how the reading ends. */
  datatype Delivery = Delivery(payloads: seq<seq<byte>>, end: End)

  function Deliver(bytes: seq<byte>): (d: Delivery)
    decreases |bytes|
  {
    match ParseFrame(bytes)
    case Closed => Delivery([], AtClose)
    case Hang => Delivery([], AtHang)
    case Got(ret, p, rest) =>
      if ret < 0 then Delivery([], AtAssert)  // assert(rsize > 0)
      else
        var d := Deliver(rest);
        if ret == 0 then d else Delivery([p] + d.payloads, d.end)
  }

  /** A frame at the head of the stream is read back whole. */
  lemma ParseOfFrame(p: seq<byte>, rest: seq<byte>)
    requires |p| < WORD
    ensures ParseFrame(Frame(p) + rest) == Got(ToInt32(|p|), p, rest)
  {
    var bytes := Frame(p) + rest;
    WordRoundTrip(|p|);
    assert bytes[..4] == Bytes4(|p|);
    assert bytes[4..] == p + rest;
    assert (p + rest)[..|p|] == p && (p + rest)[|p|..] == rest;
  }

  /** One frame of a delivery. */
  lemma DeliverStep(p: seq<byte>, rest: seq<byte>)
    requires |p| < WORD
    ensures var d := Deliver(rest);
            Deliver(Frame(p) + rest)
            == if |p| >= INT_LIMIT then Delivery([], AtAssert)
               else if p == [] then d
               else Delivery([p] + d.payloads, d.end)
  {
    ParseOfFrame(p, rest);
  }

  function NonEmpty(ps: seq<seq<byte>>): (r: seq<seq<byte>>) {
    if ps == [] then []
    else if ps[0] == [] then NonEmpty(ps[1..]) else [ps[0]] + NonEmpty(ps[1..])
  }

  /** What is delivered, for every list of payloads whose lengths fit an int: all of them in
      order, except the empty ones. */
  lemma {:induction false} DeliverFrames(ps: seq<seq<byte>>)
    requires Sendable(ps)
    ensures Sized(ps) && Deliver(Frames(ps)) == Delivery(NonEmpty(ps), AtClose)
  {
    if ps == [] {
    } else {
      DeliverFrames(ps[1..]);
      DeliverStep(ps[0], Frames(ps[1..]));
    }
  }

  predicate Fits(p: seq<byte>) { 1 <= |p| < INT_LIMIT }

  predicate AllFit(ps: seq<seq<byte>>) { forall k | 0 <= k < |ps| :: Fits(ps[k]) }

  /** Whatever is on the stream, only payloads of 1 to 2^31-1 bytes are ever delivered. */
  lemma {:induction false} DeliveredFit(bytes: seq<byte>)
    ensures AllFit(Deliver(bytes).payloads)
    decreases |bytes|
  {
    match ParseFrame(bytes)
    case Closed =>
    case Hang =>
    case Got(ret, p, rest) =>
      if ret >= 0 { DeliveredFit(rest); }
  }

  /** Nothing is delivered that did not come as a frame. */
  lemma {:induction false} DeliveredLength(bytes: seq<byte>)
    ensures Sized(Deliver(bytes).payloads) && |Frames(Deliver(bytes).payloads)| <= |bytes|
    decreases |bytes|
  {
    match ParseFrame(bytes)
    case Closed =>
    case Hang =>
    case Got(ret, p, rest) =>
      if ret >= 0 {
        DeliveredLength(rest);
        assert ([p] + Deliver(rest).payloads)[1..] == Deliver(rest).payloads;
      }
  }

  lemma {:induction false} NonEmptyIfFit(ps: seq<seq<byte>>)
    requires AllFit(ps)
    ensures NonEmpty(ps) == ps
  {
    if ps == [] {
    } else {
      assert Fits(ps[0]);
      NonEmptyIfFit(ps[1..]);
    }
  }

  /** The round trip holds exactly for payloads of 1 to 2^31-1 bytes. */
  lemma RoundTripIff(ps: seq<seq<byte>>)
    requires Sized(ps)
    ensures Deliver(Frames(ps)) == Delivery(ps, AtClose) <==> AllFit(ps)
  {
    DeliveredFit(Frames(ps));
    if AllFit(ps) {
      assert Sendable(ps) by { forall k | 0 <= k < |ps| ensures |ps[k]| < INT_LIMIT { assert Fits(ps[k]); } }
      DeliverFrames(ps);
      NonEmptyIfFit(ps);
    }
  }

  // ---------------------------------------------------------------- streams that are cut

  /** How many frames lie wholly in the first k bytes. */
  function Whole(ps: seq<seq<byte>>, k: nat): (w: nat)
    ensures w <= |ps|
  {
    if ps == [] || k < 4 + |ps[0]| then 0 else 1 + Whole(ps[1..], k - 4 - |ps[0]|)
  }

  /** What is left of the k bytes behind the whole frames. */
  function Surplus(ps: seq<seq<byte>>, k: nat): (r: nat) {
    if ps == [] || k < 4 + |ps[0]| then k else Surplus(ps[1..], k - 4 - |ps[0]|)
  }

  /** The two describe the cut. */
  lemma {:induction false} CutIs(ps: seq<seq<byte>>, k: nat)
    requires Sized(ps) && k <= |Frames(ps)|
    ensures var w := Whole(ps, k);
            && |Frames(ps[..w])| + Surplus(ps, k) == k
            && (w == |ps| ==> Surplus(ps, k) == 0)
            && (w < |ps| ==> Surplus(ps, k) < 4 + |ps[w]|)
  {
    if ps == [] || k < 4 + |ps[0]| {
      assert ps[..0] == [];
    } else {
      var w := Whole(ps, k);
      CutIs(ps[1..], k - 4 - |ps[0]|);
      assert ps[..w][1..] == ps[1..][..w - 1];
    }
  }

  /** The part of one frame that is cut off inside. */
  lemma CutFrame(p: seq<byte>, j: nat)
    requires |p| < WORD && j < 4 + |p|
    ensures Deliver(Frame(p)[..j]) == Delivery([], EndAt(j))
    ensures Deliver(Frame(p)[..j]).end == AtClose <==> j == 0 || j == 4
  {
    var bytes := Frame(p)[..j];
    WordRoundTrip(|p|);
    if j >= 4 {
      assert bytes[..4] == Bytes4(|p|);
      if j == 4 {
        assert bytes[4..] == [];
        assert ParseFrame(bytes) == Got(0, [], []);
        assert Deliver([]) == Delivery([], AtClose);
      }
    }
  }

  /** How the reading ends j bytes behind the last whole frame. */
  function EndAt(j: nat): (e: End) { if j == 0 || j == 4 then AtClose else AtHang }

  lemma CutBehind(p: seq<byte>, rest: seq<byte>, k: nat)
    requires |p| < WORD && 4 + |p| <= k <= 4 + |p| + |rest|
    ensures (Frame(p) + rest)[..k] == Frame(p) + rest[..k - 4 - |p|]
  {
  }

  lemma NonEmptyStep(ps: seq<seq<byte>>, w: nat)
    requires 1 <= w <= |ps|
    ensures var qs := NonEmpty(ps[1..][..w - 1]);
            NonEmpty(ps[..w]) == if ps[0] == [] then qs else [ps[0]] + qs
  {
    assert ps[..w][1..] == ps[1..][..w - 1];
  }

  /** What a stream delivers that ends anywhere: the payloads of the frames that are whole, in
      order, except the empty ones.  A cut between frames and a cut right after a header read as
      the exit of the peer; at any other cut the reader hangs. */
  lemma {:induction false} DeliverCut(ps: seq<seq<byte>>, k: nat)
    requires Sized(ps) && k <= |Frames(ps)| && Sendable(ps[..Whole(ps, k)])
    ensures Deliver(Frames(ps)[..k]) == Delivery(NonEmpty(ps[..Whole(ps, k)]), EndAt(Surplus(ps, k)))
  {
    if ps == [] {
      assert Frames(ps)[..k] == [];
    } else if k < 4 + |ps[0]| {
      assert Frames(ps)[..k] == Frame(ps[0])[..k];
      CutFrame(ps[0], k);
    } else {
      SendableTail(ps, Whole(ps, k));
      DeliverCut(ps[1..], k - 4 - |ps[0]|);
      DeliverWhole(ps, k, Whole(ps, k), EndAt(Surplus(ps, k)));
    }
  }

  /** A whole frame i whose length does not fit an int stops the reader at its assertion, wherever
      the stream ends; together with `DeliverCut` this is every cut of every list of frames. */
  lemma {:induction false} DeliverLong(ps: seq<seq<byte>>, k: nat, i: nat)
    requires Sized(ps) && k <= |Frames(ps)|
    requires i < Whole(ps, k) && Sendable(ps[..i]) && |ps[i]| >= INT_LIMIT
    ensures Deliver(Frames(ps)[..k]) == Delivery(NonEmpty(ps[..i]), AtAssert)
  {
    if i == 0 {
      CutBehind(ps[0], Frames(ps[1..]), k);
      DeliverStep(ps[0], Frames(ps[1..])[..k - 4 - |ps[0]|]);
    } else {
      SendableTail(ps, i);
      DeliverLong(ps[1..], k - 4 - |ps[0]|, i - 1);
      DeliverWhole(ps, k, i, AtAssert);
    }
  }

  lemma SendableTail(ps: seq<seq<byte>>, w: nat)
    requires 1 <= w <= |ps| && Sendable(ps[..w])
    ensures |ps[0]| < INT_LIMIT && Sendable(ps[1..][..w - 1])
  {
    assert ps[0] == ps[..w][0];
    assert ps[1..][..w - 1] == ps[..w][1..];
  }

  /** One more frame in front of a stream that is cut. */
  lemma DeliverWhole(ps: seq<seq<byte>>, k: nat, w: nat, end: End)
    requires Sized(ps) && 1 <= w <= |ps| && |ps[0]| < INT_LIMIT && 4 + |ps[0]| <= k <= |Frames(ps)|
    requires Deliver(Frames(ps[1..])[..k - 4 - |ps[0]|]) == Delivery(NonEmpty(ps[1..][..w - 1]), end)
    ensures Deliver(Frames(ps)[..k]) == Delivery(NonEmpty(ps[..w]), end)
  {
    var rest := Frames(ps[1..]);
    CutBehind(ps[0], rest, k);
    DeliverStep(ps[0], rest[..k - 4 - |ps[0]|]);
    NonEmptyStep(ps, w);
  }

  // ---------------------------------------------------------------- reading

  /** What a function of the reading side does: return an int, never return, or write behind the end
      of its buffer. */
  datatype Ret = Returns(n: int) | Spins | Overruns

  /** `msglen + 1` is computed in 32 bits, so for the longest length the temporary buffer has no
      bytes at all. */
  predicate Overrun(bytes: seq<byte>, maxsize: nat) {
    |bytes| > 4 && Value4(bytes[..4]) == WORD - 1 && maxsize < WORD - 1
  }

  /** The receiving end of a connection: every byte that will still arrive. */
  class Source {
    var bytes: seq<byte>

    /** read(2): at least one byte unless none was asked for or the stream is at its end, and
        otherwise as many as it pleases. */
    method Read(buff: array<byte>, at: nat, max: nat) returns (n: nat)
      requires at + max <= buff.Length
      modifies this, buff
      ensures n <= max && n <= |old(bytes)|
      ensures n == 0 <==> max == 0 || old(bytes) == []
      ensures bytes == old(bytes)[n..]
      ensures buff[..] == old(buff[..at]) + old(bytes)[..n] + old(buff[at + n..])
    {
      var b := bytes;
      assert max > 0 && b != [] ==> 1 <= max && 1 <= |b|;
      n :| 0 <= n <= max && n <= |b| && (n == 0 <==> max == 0 || b == []);
      for k := 0 to n
        invariant forall i | 0 <= i < buff.Length ::
                    buff[i] == if at <= i < at + k then b[i - at] else old(buff[i])
        modifies buff
      {
        buff[at + k] := b[k];
      }
      bytes := b[n..];
    }
  }

  /** What `readn` makes of the bytes to come. */
  datatype ReadN = Stops | Fills | Never

  function ReadNCase(bytes: seq<byte>, len: nat): (r: ReadN) {
    if len == 0 || bytes == [] then Stops else if len <= |bytes| then Fills else Never
  }

  /** `readn`.  When the stream ends early its loop repeats a read of zero bytes for ever. */
  method Readn(s: Source, buff: array<byte>, len: nat) returns (r: Ret)
    requires len <= buff.Length && len < WORD
    modifies s, buff
    ensures match ReadNCase(old(s.bytes), len)
            case Stops => r == Returns(0) && s.bytes == old(s.bytes)
            case Fills => r == Returns(ToInt32(len)) && buff[..len] == old(s.bytes)[..len]
                          && s.bytes == old(s.bytes)[len..]
            case Never => r == Spins
  {
    ghost var all := s.bytes;
    var got := s.Read(buff, 0, len);
    if got == 0 {
      return Returns(0);
    }
    assert buff[..got] == all[..got];
    while got < len
      invariant 0 < got <= len && got <= |all|
      invariant s.bytes == all[got..] && buff[..got] == all[..got]
    {
      var more := s.Read(buff, got, len - got);
      if more == 0 {
        return Spins;
      }
      assert buff[..got + more] == all[..got] + all[got..][..more] == all[..got + more];
      assert all[got..][more..] == all[got + more..];
      got := got + more;
    }
    return Returns(ToInt32(got));
  }

  /** `tcp_read`: the payload goes to `buff` if it fits in `maxsize` bytes, else to `tempbuf`. */
  method TcpRead(s: Source, buff: array<byte>, maxsize: nat)
    returns (r: Ret, tempbuf: array<byte>, useTempbuf: bool)
    requires maxsize <= buff.Length && maxsize < WORD
    modifies s, buff
    ensures fresh(tempbuf)
    ensures r == Overruns <==> Overrun(old(s.bytes), maxsize)
    ensures r != Overruns ==>
            match ParseFrame(old(s.bytes))
            case Closed => r == Returns(0) && s.bytes == []
            case Hang => r == Spins
            case Got(ret, payload, rest) =>
              && r == Returns(ret) && s.bytes == rest
              && (payload != [] ==> (useTempbuf <==> |payload| > maxsize))
              && (if useTempbuf then |payload| <= tempbuf.Length && tempbuf[..|payload|] == payload
                  else |payload| <= buff.Length && buff[..|payload|] == payload)
  {
    useTempbuf, tempbuf := false, new byte[0];
    ghost var all := s.bytes;
    var header := new byte[4];
    r := Readn(s, header, 4);
    if r == Returns(0) || r == Spins {
      return;
    }
    var msglen := Value4(header[..4]);
    assert header[..4] == all[..4];
    if msglen <= maxsize {
      r := Readn(s, buff, msglen);
    } else {
      tempbuf := new byte[(msglen + 1) % WORD];
      useTempbuf := true;
      if tempbuf.Length < msglen {
        r := if s.bytes == [] then Returns(0) else Overruns;
        return;
      }
      r := Readn(s, tempbuf, msglen);
    }
  }

  /** The reading of one connection by `start_read`, up to the end of the stream. */
  method ReadConnection(s: Source, buff: array<byte>, maxsize: nat) returns (d: Delivery)
    requires maxsize <= buff.Length && maxsize < WORD
    modifies s, buff
    ensures d.end != AtOverrun ==> d == Deliver(old(s.bytes))
    ensures d.end == AtOverrun ==>
              var e := Deliver(old(s.bytes)); d.payloads == e.payloads && e.end != AtClose && maxsize < WORD - 1
  {
    var seen: seq<seq<byte>> := [];
    assert Prefixed([], Deliver(s.bytes)) == Deliver(s.bytes);
    while s.bytes != []
      invariant Deliver(old(s.bytes)) == Prefixed(seen, Deliver(s.bytes))
      decreases |s.bytes|
    {
      ghost var bytes := s.bytes;
      var rsize, tempbuf, useTempbuf := TcpRead(s, buff, maxsize);
      if rsize == Overruns {
        OverrunEnds(bytes, maxsize);
        return Delivery(seen + [], AtOverrun);
      }
      if rsize == Spins {
        return Delivery(seen + [], AtHang);
      }
      if rsize.n < 0 {
        return Delivery(seen + [], AtAssert);
      }
      if rsize.n > 0 {
        var payload := if useTempbuf then tempbuf[..rsize.n] else buff[..rsize.n];
        PrefixedStep(seen, payload, Deliver(s.bytes));
        seen := seen + [payload];
      }
    }
    return Delivery(seen + [], AtClose);
  }

  /** The frame at which the buffer is overrun would not have been delivered anyway. */
  lemma OverrunEnds(bytes: seq<byte>, maxsize: nat)
    requires Overrun(bytes, maxsize)
    ensures Deliver(bytes) == Delivery([], AtHang) || Deliver(bytes) == Delivery([], AtAssert)
    ensures bytes != []
  {
  }

  /** The longest length that a header can give, and a buffer that is smaller. */
  lemma LongestOverruns(rest: seq<byte>, maxsize: nat)
    requires rest != [] && maxsize < WORD - 1
    ensures Overrun(Bytes4(WORD - 1) + rest, maxsize)
  {
    WordRoundTrip(WORD - 1);
    assert (Bytes4(WORD - 1) + rest)[..4] == Bytes4(WORD - 1);
  }

  function Prefixed(seen: seq<seq<byte>>, d: Delivery): (r: Delivery) { Delivery(seen + d.payloads, d.end) }

  lemma PrefixedStep(seen: seq<seq<byte>>, p: seq<byte>, d: Delivery)
    ensures Prefixed(seen + [p], d) == Prefixed(seen, Delivery([p] + d.payloads, d.end))
  {
    assert seen + [p] + d.payloads == seen + ([p] + d.payloads);
  }

  // ---------------------------------------------------------------- writing

  /** The sending end of a connection: every byte written so far. */
  class Sink {
    var bytes: seq<byte>

    /** write(2): a positive part of what is left, or an error. */
    method Write(buff: array<byte>, at: nat, max: nat) returns (n: int)
      requires at + max <= buff.Length && max > 0
      modifies this
      ensures n == -1 || 0 < n <= max
      ensures bytes == if n == -1 then old(bytes) else old(bytes) + buff[at..at + n]
    {
      var fails: bool := *;
      if fails {
        return -1;
      }
      n :| 0 < n <= max;
      bytes := bytes + buff[at..at + n];
    }
  }

  /** `writen`; `done` bytes were written when it returned. */
  method Writen(s: Sink, buff: array<byte>, len: nat) returns (r: int, ghost done: nat)
    requires len <= buff.Length && len < WORD
    modifies s
    ensures done <= len && s.bytes == old(s.bytes) + buff[..done]
    ensures r == if done == len then ToInt32(len) else -1
  {
    var i := 0;
    while i < len
      invariant i <= len && s.bytes == old(s.bytes) + buff[..i]
    {
      var written := s.Write(buff, i, len - i);
      if written < 0 {
        return -1, i;
      }
      assert buff[..i + written] == buff[..i] + buff[i..i + written];
      i := i + written;
    }
    return ToInt32(i), i;
  }

  /** `tcp_write`; the test of the header's result compares an unsigned value with 0, so the
      payload is written in any case, and the result speaks of the payload alone. */
  method TcpWrite(s: Sink, buff: array<byte>, msglen: nat) returns (r: int, ghost h: nat, ghost done: nat)
    requires msglen <= buff.Length && msglen < WORD
    modifies s
    ensures h <= 4 && done <= msglen
    ensures s.bytes == old(s.bytes) + Bytes4(msglen)[..h] + buff[..done]
    ensures r == if done == msglen then ToInt32(msglen) else -1
    ensures h == 4 && done == msglen ==> s.bytes == old(s.bytes) + Frame(buff[..msglen])
  {
    var header := new byte[4];
    var bytes := Bytes4(msglen);
    for k := 0 to 4
      invariant header[..k] == bytes[..k]
      modifies header
    {
      header[k] := bytes[k];
    }
    assert header[..4] == bytes;
    var n;
    n, h := Writen(s, header, 4);
    assert header[..h] == bytes[..h];
    r, done := Writen(s, buff, msglen);
    assert h == 4 ==> bytes[..h] == bytes;
  }

  /** The framing constructor of `msg_t`: the buffer it fills and the `len` it stores, which is
      a dsize_t. */
  method NewMsg(d: array<byte>, l: nat) returns (data: array<byte>, len: nat)
    requires l <= d.Length && l < WORD
    ensures fresh(data) && data[..] == Frame(d[..l])
    ensures len == MsgLen(l)
  {
    data := new byte[l + 4];
    var h := Bytes4(l);
    for k := 0 to 4
      invariant data[..k] == h[..k]
    {
      data[k] := h[k];
    }
    for k := 0 to l
      invariant data[..4 + k] == h + d[..k]
    {
      data[4 + k] := d[k];
    }
    assert data[..] == data[..4 + l];
    len := (l + 4) % WORD;
  }

  function MsgLen(l: nat): (n: nat) { (l + 4) % WORD }

  /** The bytes a writer thread sends for a message with payload p. */
  function Sent(p: seq<byte>): (bytes: seq<byte>)
    requires |p| < WORD
  {
    Frame(p)[..MsgLen(|p|)]
  }

  /** The whole frame is sent exactly if the frame's length fits a dsize_t. */
  lemma SentIsFrameIff(p: seq<byte>)
    requires |p| < WORD
    ensures Sent(p) == Frame(p) <==> |p| + 4 < WORD
  {
    if |p| + 4 < WORD {
      assert Frame(p)[..|p| + 4] == Frame(p);
    } else {
      assert |Sent(p)| < 4;
    }
  }
}
