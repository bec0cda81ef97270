/** Bytes, big-endian 16-bit encodings and concatenation of byte strings. */
module Bytes {

  newtype byte = x: int | 0 <= x < 0x100

  /** `(n as u16).to_be_bytes()`: the cast keeps the low 16 bits of `n`. */
  function BeU16(n: nat): (r: seq<byte>)
    ensures |r| == 2
  {
    [((n % 0x1_0000) / 0x100) as byte, (n % 0x100) as byte]
  }

  /** `u16::from_be_bytes` on two bytes. */
  function FromBeU16(hi: byte, lo: byte): (n: nat)
    ensures n < 0x1_0000
  {
    hi as nat * 0x100 + lo as nat
  }

  lemma BeU16RoundTrip(n: nat)
    ensures FromBeU16(BeU16(n)[0], BeU16(n)[1]) == n % 0x1_0000
  {
  }

  /** Concatenation of a sequence of byte strings, in order. */
  function Join(parts: seq<seq<byte>>): (r: seq<byte>)
  {
    if parts == [] then [] else parts[0] + Join(parts[1..])
  }

  lemma {:induction false} JoinAppend(a: seq<seq<byte>>, b: seq<seq<byte>>)
    ensures Join(a + b) == Join(a) + Join(b)
  {
    if a == [] {
      assert a + b == b;
    } else {
      assert (a + b)[1..] == a[1..] + b;
      JoinAppend(a[1..], b);
    }
  }
}
