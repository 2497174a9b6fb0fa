/** Big-endian byte strings and the numbers they denote. */
module ByteStrings {
  import opened Basics

  /** Two to the power of eight times n: shifting left by n bytes multiplies by it. */
  function Pow256(n: nat): (p: nat)
    ensures p > 0
  {
    if n == 0 then 1 else 256 * Pow256(n - 1)
  }

  function FromBytes(b: Bytes): nat {
    if b == [] then 0 else FromBytes(b[..|b| - 1]) * 256 + b[|b| - 1] as nat
  }

  /** The last `length` bytes of n. */
  function ToBytes(n: nat, length: nat): (b: Bytes)
    ensures |b| == length
  {
    if length == 0 then [] else ToBytes(n / 256, length - 1) + [(n % 256) as byte]
  }

  function ZeroPad(b: Bytes, length: nat): Bytes {
    if |b| < length then Zeros(length - |b|) + b else b
  }

  function Zeros(n: nat): (b: Bytes)
    ensures |b| == n
  {
    if n == 0 then [] else Zeros(n - 1) + [0]
  }

  lemma {:induction false} FromBytesBound(b: Bytes)
    ensures FromBytes(b) < Pow256(|b|)
  {
    if b != [] {
      FromBytesBound(b[..|b| - 1]);
    }
  }

  lemma {:induction false} FromBytesConcat(a: Bytes, b: Bytes)
    ensures FromBytes(a + b) == FromBytes(a) * Pow256(|b|) + FromBytes(b)
  {
    if b == [] {
      assert a + b == a;
    } else {
      var init := b[..|b| - 1];
      assert (a + b)[..|a + b| - 1] == a + init;
      FromBytesConcat(a, init);
      assert FromBytes(a) * Pow256(|b|) == (FromBytes(a) * Pow256(|init|)) * 256;
    }
  }

  /** Writing a number and reading it back, when it fits. */
  lemma {:induction false} FromToBytes(n: nat, length: nat)
    requires n < Pow256(length)
    ensures FromBytes(ToBytes(n, length)) == n
  {
    if length != 0 {
      assert n / 256 < Pow256(length - 1);
      FromToBytes(n / 256, length - 1);
    }
  }

  lemma {:induction false} ToFromBytes(b: Bytes)
    ensures ToBytes(FromBytes(b), |b|) == b
  {
    if b != [] {
      ToFromBytes(b[..|b| - 1]);
    }
  }

  const TWO_48: nat := 0x1_0000_0000_0000
  const TWO_128: nat := 0x1_0000_0000_0000_0000_0000_0000_0000_0000
  const TWO_160: nat := 0x1_0000_0000_0000_0000_0000_0000_0000_0000_0000_0000
  const TWO_256: nat := 0x1_0000_0000_0000_0000_0000_0000_0000_0000_0000_0000_0000_0000_0000_0000_0000_0000

  lemma Powers()
    ensures Pow256(6) == TWO_48 && Pow256(20) == TWO_160 && Pow256(32) == TWO_256
  {
  }
}
