/**
 * Big-endian length fields as FlvMuxer.cpp writes them: `(n >> k) & 0xFF` for each byte,
 * high byte first. For a non-negative n a right shift by k is division by 2^k and the mask
 * is the remainder modulo 256, so only the low 16 (resp. 32) bits of n reach the output.
 */
module ByteOrder {

  /** An octet; the source's uint8_t. */
  newtype byte = x: int | 0 <= x < 0x100

  /** The two bytes `(n >> 8) & 0xFF`, `n & 0xFF`. */
  function Be16(n: nat): (r: seq<byte>)
    ensures |r| == 2
  {
    [(n / 0x100 % 0x100) as byte, (n % 0x100) as byte]
  }

  /** The four bytes `(n >> 24) & 0xFF`, `(n >> 16) & 0xFF`, `(n >> 8) & 0xFF`, `n & 0xFF`. */
  function Be32(n: nat): (r: seq<byte>)
    ensures |r| == 4
  {
    [(n / 0x100_0000 % 0x100) as byte, (n / 0x1_0000 % 0x100) as byte,
     (n / 0x100 % 0x100) as byte, (n % 0x100) as byte]
  }

  /** The number a reader of a 16-bit big-endian field recovers. */
  function DecodeBe16(b: seq<byte>): (n: nat)
    requires |b| == 2
    ensures n < 0x1_0000
  {
    b[0] as int * 0x100 + b[1] as int
  }

  /** The number a reader of a 32-bit big-endian field recovers. */
  function DecodeBe32(b: seq<byte>): (n: nat)
    requires |b| == 4
    ensures n < 0x1_0000_0000
  {
    DecodeBe16(b[..2]) * 0x1_0000 + DecodeBe16(b[2..])
  }

  /** The low 16 bits of n are its second-lowest byte and its lowest byte. */
  lemma Low16(n: nat)
    ensures n % 0x1_0000 == n / 0x100 % 0x100 * 0x100 + n % 0x100
  {
    var q, r := n / 0x100, n % 0x100;
    var q2, r2 := q / 0x100, q % 0x100;
    assert n == q2 * 0x1_0000 + (r2 * 0x100 + r);
  }

  /** Dividing by 2^8 twice is dividing by 2^16. */
  lemma DivDiv(n: nat)
    ensures n / 0x100 / 0x100 == n / 0x1_0000
  {
    var q, r := n / 0x100, n % 0x100;
    var q2, r2 := q / 0x100, q % 0x100;
    assert n == q2 * 0x1_0000 + (r2 * 0x100 + r);
  }

  /** Dividing by 2^16 and then 2^8 is dividing by 2^24. */
  lemma DivDiv24(n: nat)
    ensures n / 0x1_0000 / 0x100 == n / 0x100_0000
  {
    var q, r := n / 0x1_0000, n % 0x1_0000;
    var q2, r2 := q / 0x100, q % 0x100;
    assert n == q2 * 0x100_0000 + (r2 * 0x1_0000 + r);
  }

  /** The low 32 bits of n are its two 16-bit halves. */
  lemma Low32(n: nat)
    ensures n % 0x1_0000_0000 == n / 0x1_0000 % 0x1_0000 * 0x1_0000 + n % 0x1_0000
  {
    var q, r := n / 0x1_0000, n % 0x1_0000;
    var q2, r2 := q / 0x1_0000, q % 0x1_0000;
    assert n == q2 * 0x1_0000_0000 + (r2 * 0x1_0000 + r);
  }

  /** Writing the low 16 bits of n and reading them back gives n modulo 2^16. */
  lemma {:induction false} Be16RoundTrip(n: nat)
    ensures DecodeBe16(Be16(n)) == n % 0x1_0000
  {
    Low16(n);
  }

  /** Every 16-bit field is the encoding of the number it decodes to. */
  lemma {:induction false} Be16Canonical(b: seq<byte>)
    requires |b| == 2
    ensures Be16(DecodeBe16(b)) == b
  {
    var n := DecodeBe16(b);
    assert n / 0x100 == b[0] as int && n % 0x100 == b[1] as int;
    assert Be16(n)[0] == b[0] && Be16(n)[1] == b[1];
  }

  /** Writing the low 32 bits of n and reading them back gives n modulo 2^32. */
  lemma {:induction false} Be32RoundTrip(n: nat)
    ensures DecodeBe32(Be32(n)) == n % 0x1_0000_0000
  {
    var b := Be32(n);
    var hi := n / 0x1_0000;
    DivDiv(n);
    DivDiv24(n);
    Low32(n);
    assert b[..2] == Be16(hi);
    assert b[2..] == Be16(n);
    Be16RoundTrip(hi);
    Be16RoundTrip(n);
  }

  /** Every 32-bit field is the encoding of the number it decodes to. */
  lemma {:induction false} Be32Canonical(b: seq<byte>)
    requires |b| == 4
    ensures Be32(DecodeBe32(b)) == b
  {
    var n := DecodeBe32(b);
    var hi, lo := DecodeBe16(b[..2]), DecodeBe16(b[2..]);
    assert n == hi * 0x1_0000 + lo;
    assert n / 0x1_0000 == hi && n % 0x1_0000 == lo;
    DivDiv24(n);
    assert n / 0x100 == hi * 0x100 + lo / 0x100;
    assert n / 0x100 % 0x100 == lo / 0x100 % 0x100;
    assert n % 0x100 == lo % 0x100;
    Be16Canonical(b[..2]);
    Be16Canonical(b[2..]);
    assert Be32(n) == Be16(hi) + Be16(lo);
    assert b == b[..2] + b[2..];
  }
}
