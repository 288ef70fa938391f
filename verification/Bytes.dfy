/** Bytes and fixed-width big-endian integers. */
module Bytes {

  newtype byte = x: int | 0 <= x < 256

  /** The n low-order bytes of x, most significant first. */
  function BigEndian(x: nat, n: nat): (b: seq<byte>)
    ensures |b| == n
  {
    if n == 0 then [] else BigEndian(x / 256, n - 1) + [(x % 256) as byte]
  }

  function Pow256(n: nat): nat {
    if n == 0 then 1 else 256 * Pow256(n - 1)
  }

  lemma {:induction false} BigEndianInjective(x: nat, y: nat, n: nat)
    requires x < Pow256(n) && y < Pow256(n) && BigEndian(x, n) == BigEndian(y, n)
    ensures x == y
  {
    if n > 0 {
      var a, b := BigEndian(x, n), BigEndian(y, n);
      assert a[..n - 1] == BigEndian(x / 256, n - 1) && b[..n - 1] == BigEndian(y / 256, n - 1);
      assert a[n - 1] == (x % 256) as byte && b[n - 1] == (y % 256) as byte;
      BigEndianInjective(x / 256, y / 256, n - 1);
    }
  }

  function FromBigEndian(b: seq<byte>): (x: nat)
    ensures x < Pow256(|b|)
  {
    if b == [] then 0 else 256 * FromBigEndian(b[..|b| - 1]) + b[|b| - 1] as nat
  }

  lemma {:induction false} BigEndianRead(x: nat, n: nat)
    requires x < Pow256(n)
    ensures FromBigEndian(BigEndian(x, n)) == x
  {
    if n > 0 {
      var b := BigEndian(x, n);
      assert b[..n - 1] == BigEndian(x / 256, n - 1);
      BigEndianRead(x / 256, n - 1);
    }
  }

  lemma {:induction false} BigEndianWritten(b: seq<byte>)
    ensures BigEndian(FromBigEndian(b), |b|) == b
  {
    if b != [] {
      var init, last := b[..|b| - 1], b[|b| - 1];
      BigEndianWritten(init);
      var x := FromBigEndian(b);
      assert x / 256 == FromBigEndian(init) && x % 256 == last as nat;
      assert b == init + [last];
    }
  }
}
