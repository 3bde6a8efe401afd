/** Bytes and 32-bit words as they lie in memory. */
module Words {
  type byte = x: int | 0 <= x < 256

  const INT_LIMIT := 0x8000_0000
  const WORD := 0x1_0000_0000

  /** A value of uint32_t. */
  type word = x: int | 0 <= x < 0x1_0000_0000

  /** An int stored in 32 bits. */
  function ToWord(n: int): (w: word) { n % WORD }

  /** A uint32_t value converted to int. */
  function ToInt32(w: word): (r: int) { if w < INT_LIMIT then w else w - WORD }

  /** The four bytes of a word in memory, the lowest first. */
  function Bytes4(w: word): (h: seq<byte>)
    ensures |h| == 4
  {
    [w % 256, w / 256 % 256, w / 256 / 256 % 256, w / 256 / 256 / 256]
  }

  function Value4(h: seq<byte>): (w: word)
    requires |h| == 4
  {
    h[0] as int + 256 * (h[1] as int + 256 * (h[2] as int + 256 * (h[3] as int)))
  }

  lemma WordRoundTrip(w: word)
    ensures Value4(Bytes4(w)) == w
  {
  }

  /** The bytes of a word are its digits in base 256, the lowest first. */
  lemma BytesAre(w: word)
    ensures var h := Bytes4(w);
            w == h[0] as int + 0x100 * (h[1] as int) + 0x1_0000 * (h[2] as int) + 0x100_0000 * (h[3] as int)
  {
  }

  lemma ValueIs(h: seq<byte>)
    requires |h| == 4
    ensures Value4(h) == h[0] as int + 0x100 * (h[1] as int) + 0x1_0000 * (h[2] as int) + 0x100_0000 * (h[3] as int)
  {
  }

  /** Conversion between int and uint32_t keeps what fits and is two's complement otherwise. */
  lemma ConversionsAre(n: int)
    ensures 0 <= n < 0x1_0000_0000 ==> ToWord(n) == n
    ensures -0x8000_0000 <= n < 0 ==> ToWord(n) == n + 0x1_0000_0000
    ensures -0x8000_0000 <= n < 0x8000_0000 <==> ToInt32(ToWord(n)) == n
  {
  }
}
