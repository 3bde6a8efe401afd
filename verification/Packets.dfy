/**
 The 8 KB packets of mpi/scheduler.hpp: a message struct laid over a byte buffer, and a checksum
 over a prefix of the buffer stored behind it.
 */
module Packets {
  import opened Words

  const MSGSIZE := 8192
  const CRCMSGSIZE := 8184
  const CRCPOS := 8188
  const UNDONE := 0x50
  const DONE := 0x60

  /** The fields of `msg`, and the first int of its payload, a `heartbeat`. */
  datatype Msg = Msg(src: int, dst: int, seqno: int, kind: int, status: int, rank: int)

  /** A packet as it travels: the message and the checksum slot behind it. */
  datatype Packet = Packet(msg: Msg, crc: int)

  /** Any checksum of a byte string; `generate_crc32` is one. */
  type Checksum = seq<byte> -> word

  // ---------------------------------------------------------------- layout

  /** Byte i of a calloc'ed packet with these fields and this checksum slot. */
  function ByteAt(p: Packet, i: nat): (b: byte) {
    if i < 4 then Bytes4(ToWord(p.msg.src))[i]
    else if i < 8 then Bytes4(ToWord(p.msg.dst))[i - 4]
    else if i < 12 then Bytes4(ToWord(p.msg.seqno))[i - 8]
    else if i < 16 then Bytes4(ToWord(p.msg.kind))[i - 12]
    else if i < 20 then Bytes4(ToWord(p.msg.status))[i - 16]
    else if i < 24 then Bytes4(ToWord(p.msg.rank))[i - 20]
    else if CRCPOS <= i < MSGSIZE then Bytes4(ToWord(p.crc))[i - CRCPOS]
    else 0
  }

  function Image(p: Packet): (bytes: seq<byte>) { seq(MSGSIZE, i requires 0 <= i => ByteAt(p, i)) }

  /** The bytes the checksum covers. */
  function Covered(m: Msg): (bytes: seq<byte>) { Image(Packet(m, 0))[..CRCMSGSIZE] }

  /** The layout of a packet: the fields one after another from the start, then the payload up to
      byte 8184 under the checksum, and the checksum itself in the last four bytes. */
  lemma LayoutIs(p: Packet)
    ensures var bytes := Image(p);
            && |bytes| == 8192
            && At4(bytes, 0) == ToWord(p.msg.src) && At4(bytes, 4) == ToWord(p.msg.dst)
            && At4(bytes, 8) == ToWord(p.msg.seqno) && At4(bytes, 12) == ToWord(p.msg.kind)
            && At4(bytes, 16) == ToWord(p.msg.status) && At4(bytes, 20) == ToWord(p.msg.rank)
            && At4(bytes, 8188) == ToWord(p.crc)
            && |Covered(p.msg)| == 8184 && bytes[..8184] == Covered(p.msg)
  {
    BytesAre(ToWord(p.msg.src));
    BytesAre(ToWord(p.msg.dst));
    BytesAre(ToWord(p.msg.seqno));
    BytesAre(ToWord(p.msg.kind));
    BytesAre(ToWord(p.msg.status));
    BytesAre(ToWord(p.msg.rank));
    BytesAre(ToWord(p.crc));
    CoveredIs(p);
  }

  /** The word at a place in memory. */
  function At4(bytes: seq<byte>, at: nat): (n: int)
    requires at + 4 <= |bytes|
  {
    bytes[at] as int + 0x100 * (bytes[at + 1] as int) + 0x1_0000 * (bytes[at + 2] as int)
    + 0x100_0000 * (bytes[at + 3] as int)
  }

  /** The checksum as a function of the message. */
  function CrcOf(sum: Checksum): (crc: Msg -> int) { (m: Msg) => sum(Covered(m)) }

  lemma CrcRange(sum: Checksum, m: Msg)
    ensures 0 <= CrcOf(sum)(m) < WORD
  {
    var w: word := sum(Covered(m));
  }

  /** A message with its checksum. */
  function Sealed(sum: Checksum, m: Msg): (p: Packet) { Packet(m, CrcOf(sum)(m)) }

  /** Encapsulated bytes pass the check. */
  lemma SealedPasses(sum: Checksum, m: Msg)
    ensures Passes(sum, Image(Sealed(sum, m)))
  {
    CrcRange(sum, m);
    CheckIs(sum, Sealed(sum, m));
  }

  function Put4(bytes: seq<byte>, at: nat, n: int): (r: seq<byte>)
    requires at + 4 <= |bytes|
  {
    bytes[..at] + Bytes4(ToWord(n)) + bytes[at + 4..]
  }

  /** The checksum slot lies outside the bytes it covers. */
  lemma CoveredIs(p: Packet)
    ensures Image(p)[..CRCMSGSIZE] == Covered(p.msg)
    ensures Image(p)[CRCPOS..CRCPOS + 4] == Bytes4(ToWord(p.crc))
  {
  }

  /** The test of `msg_checkcrc` on the bytes is the comparison of the slot with the checksum of
      the message. */
  lemma CheckIs(sum: Checksum, p: Packet)
    requires 0 <= p.crc < WORD
    ensures Passes(sum, Image(p)) <==> p.crc == CrcOf(sum)(p.msg)
  {
    CoveredIs(p);
    var w: word := p.crc;
    assert ToWord(p.crc) == w;
    WordRoundTrip(w);
  }

  predicate Passes(sum: Checksum, bytes: seq<byte>)
    requires |bytes| == MSGSIZE
  {
    Value4(bytes[CRCPOS..CRCPOS + 4]) == sum(bytes[..CRCMSGSIZE])
  }

  lemma PutSrc(p: Packet, n: int)
    ensures Put4(Image(p), 0, n) == Image(p.(msg := p.msg.(src := n)))
  {
  }

  lemma PutDst(p: Packet, n: int)
    ensures Put4(Image(p), 4, n) == Image(p.(msg := p.msg.(dst := n)))
  {
  }

  lemma PutSeq(p: Packet, n: int)
    ensures Put4(Image(p), 8, n) == Image(p.(msg := p.msg.(seqno := n)))
  {
  }

  lemma PutStatus(p: Packet, n: int)
    ensures Put4(Image(p), 16, n) == Image(p.(msg := p.msg.(status := n)))
  {
  }

  lemma PutRank(p: Packet, n: int)
    ensures Put4(Image(p), 20, n) == Image(p.(msg := p.msg.(rank := n)))
  {
  }

  lemma PutCrc(p: Packet, n: int)
    ensures Put4(Image(p), CRCPOS, n) == Image(p.(crc := n))
  {
  }

  // ---------------------------------------------------------------- in place

  method Poke(pkt: array<byte>, at: nat, n: int)
    requires at + 4 <= pkt.Length
    modifies pkt
    ensures pkt[..] == Put4(old(pkt[..]), at, n)
  {
    var h := Bytes4(ToWord(n));
    for k := 0 to 4
      invariant pkt[..] == old(pkt[..at]) + h[..k] + old(pkt[at + k..])
    {
      pkt[at + k] := h[k];
    }
  }

  /** `encappkt`: `p` is the message in the buffer, with whatever is in the checksum slot. */
  method Encap(pkt: array<byte>, sum: Checksum, ghost p: Packet)
    requires pkt[..] == Image(p)
    modifies pkt
    ensures pkt[..] == Image(Sealed(sum, p.msg))
  {
    CoveredIs(p);
    assert pkt[..CRCMSGSIZE] == pkt[..][..CRCMSGSIZE];
    var crc := sum(pkt[..CRCMSGSIZE]);
    Poke(pkt, CRCPOS, crc);
    PutCrc(p, crc);
  }

  /** `msg_checkcrc` */
  method CheckCrc(pkt: array<byte>, sum: Checksum, ghost p: Packet) returns (ok: bool)
    requires pkt[..] == Image(p) && 0 <= p.crc < WORD
    ensures ok <==> p.crc == CrcOf(sum)(p.msg)
  {
    CheckIs(sum, p);
    ghost var bytes := pkt[..];
    assert pkt[CRCPOS..CRCPOS + 4] == bytes[CRCPOS..CRCPOS + 4] && pkt[..CRCMSGSIZE] == bytes[..CRCMSGSIZE];
    ok := Value4(pkt[CRCPOS..CRCPOS + 4]) == sum(pkt[..CRCMSGSIZE]);
  }

  /** The packet `sendheartbeat` builds. */
  method HeartbeatPacket(sum: Checksum, rank: int, schedrank: int) returns (pkt: array<byte>)
    ensures fresh(pkt)
    ensures pkt[..] == Image(Sealed(sum, Msg(rank, schedrank, 0, 0, 0, rank)))
  {
    pkt := new byte[MSGSIZE](_ => 0);
    ghost var p := Packet(Msg(0, 0, 0, 0, 0, 0), 0);
    assert pkt[..] == Image(p);
    Poke(pkt, 0, rank);
    PutSrc(p, rank);
    p := p.(msg := p.msg.(src := rank));
    Poke(pkt, 4, schedrank);
    PutDst(p, schedrank);
    p := p.(msg := p.msg.(dst := schedrank));
    Poke(pkt, 20, rank);
    PutRank(p, rank);
    p := p.(msg := p.msg.(rank := rank));
    Encap(pkt, sum, p);
  }

  /** The packet `server_sendtestmsg` builds. */
  method ServerPacket(sum: Checksum, seqno: int, rank: int, destrank: int) returns (pkt: array<byte>)
    ensures fresh(pkt)
    ensures var m := Msg(rank, destrank, seqno, 0, UNDONE, rank); pkt[..] == Image(Sealed(sum, m))
  {
    pkt := new byte[MSGSIZE](_ => 0);
    ghost var p := Packet(Msg(0, 0, 0, 0, 0, 0), 0);
    assert pkt[..] == Image(p);
    Poke(pkt, 8, seqno);
    PutSeq(p, seqno);
    p := p.(msg := p.msg.(seqno := seqno));
    Poke(pkt, 16, UNDONE);
    PutStatus(p, UNDONE);
    p := p.(msg := p.msg.(status := UNDONE));
    Poke(pkt, 0, rank);
    PutSrc(p, rank);
    p := p.(msg := p.msg.(src := rank));
    Poke(pkt, 4, destrank);
    PutDst(p, destrank);
    p := p.(msg := p.msg.(dst := destrank));
    Poke(pkt, 20, rank);
    PutRank(p, rank);
    p := p.(msg := p.msg.(rank := rank));
    Encap(pkt, sum, p);
  }

  /** The worker's write of the status field; the checksum slot is left stale. */
  method MarkDone(pkt: array<byte>, ghost p: Packet)
    requires pkt[..] == Image(p)
    modifies pkt
    ensures pkt[..] == Image(p.(msg := p.msg.(status := DONE)))
  {
    Poke(pkt, 16, DONE);
    PutStatus(p, DONE);
  }

  /** The buffer `client_sendtestmsg_wt_buffer` sends back. */
  method ReturnPacket(pkt: array<byte>, sum: Checksum, rank: int, schedrank: int, ghost p: Packet)
    requires pkt[..] == Image(p)
    modifies pkt
    ensures var m := p.msg.(src := rank, dst := schedrank, rank := rank);
            pkt[..] == Image(Sealed(sum, m))
  {
    Poke(pkt, 0, rank);
    PutSrc(p, rank);
    ghost var q := p.(msg := p.msg.(src := rank));
    Poke(pkt, 4, schedrank);
    PutDst(q, schedrank);
    q := q.(msg := q.msg.(dst := schedrank));
    Poke(pkt, 20, rank);
    PutRank(q, rank);
    q := q.(msg := q.msg.(rank := rank));
    Encap(pkt, sum, q);
  }
}
