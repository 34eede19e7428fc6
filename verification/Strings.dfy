/** Searching byte strings. */
module Strings {
  import opened Bits

  type Bytes = seq<Byte>

  /** Where `x` first occurs, or the end. */
  function Find(b: Bytes, x: Byte): (n: nat)
    ensures n <= |b|
    ensures forall i :: 0 <= i < n ==> b[i] != x
    ensures n < |b| ==> b[n] == x
  {
    if |b| == 0 || b[0] == x then 0 else 1 + Find(b[1..], x)
  }

  /** What precedes the first `x`. */
  function UpTo(b: Bytes, x: Byte): Bytes {
    b[..Find(b, x)]
  }

  lemma FindIs(b: Bytes, x: Byte, n: nat)
    requires n <= |b| && (n < |b| ==> b[n] == x)
    requires forall i :: 0 <= i < n ==> b[i] != x
    ensures Find(b, x) == n
  {
    assert Find(b, x) < |b| ==> b[Find(b, x)] == x;
  }
}
