/** Bytes and strings of them. */
module ByteStrings {
  type Byte = x: int | 0 <= x < 256

  function Zeros(n: nat): (r: seq<Byte>)
    ensures |r| == n
    ensures forall i :: 0 <= i < n ==> r[i] == 0
  {
    seq(n, _ => 0)
  }

  function Min(a: nat, b: nat): nat {
    if a < b then a else b
  }

  /** s with v at position i. */
  function Put(s: seq<Byte>, i: nat, v: Byte): seq<Byte>
    requires i < |s|
  {
    s[i := v]
  }
}
