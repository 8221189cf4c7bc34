/** Byte strings, little-endian integers and the result type that stands for a thrown exception. */
module Bytes {
  type byte = b: int | 0 <= b < 256
  type bytes = seq<byte>

  datatype Option<+T> = None | Some(value: T)

  /** `Thrown` is an exception of the program; `OutsideModel` marks an input whose JavaScript
      coercion is not modelled, about which nothing is claimed. */
  datatype Error = Thrown | OutsideModel

  datatype Result<+T> = Ok(value: T) | Err(error: Error) {
    predicate IsFailure() { Err? }
    function PropagateFailure<U>(): Result<U>
      requires Err?
    {
      Err(error)
    }
    function Extract(): T
      requires Ok?
    {
      value
    }
  }

  function Pow256(k: nat): (p: nat)
    ensures p > 0
  {
    if k == 0 then 1 else 256 * Pow256(k - 1)
  }

  lemma Pow256Values()
    ensures Pow256(1) == 0x100 && Pow256(2) == 0x1_0000 && Pow256(3) == 0x100_0000
    ensures Pow256(4) == 0x1_0000_0000
    ensures Pow256(8) == 0x1_0000_0000_0000_0000
  {
    assert Pow256(2) == 256 * Pow256(1);
    assert Pow256(3) == 256 * Pow256(2);
    assert Pow256(4) == 256 * Pow256(3);
    assert Pow256(5) == 256 * Pow256(4);
    assert Pow256(6) == 256 * Pow256(5);
    assert Pow256(7) == 256 * Pow256(6);
    assert Pow256(8) == 256 * Pow256(7);
  }

  /** The k low bytes of n, least significant first. */
  function ToLE(n: nat, k: nat): (b: bytes)
    ensures |b| == k
  {
    if k == 0 then [] else [n % 256] + ToLE(n / 256, k - 1)
  }

  function FromLE(b: bytes): (n: nat)
    ensures n < Pow256(|b|)
  {
    if b == [] then 0 else b[0] + 256 * FromLE(b[1..])
  }

  lemma {:induction false} FromToLE(n: nat, k: nat)
    requires n < Pow256(k)
    ensures FromLE(ToLE(n, k)) == n
  {
    if k > 0 {
      FromToLE(n / 256, k - 1);
      assert ToLE(n, k)[1..] == ToLE(n / 256, k - 1);
    }
  }

  lemma {:induction false} ToFromLE(b: bytes)
    ensures ToLE(FromLE(b), |b|) == b
  {
    if b != [] {
      ToFromLE(b[1..]);
      assert FromLE(b) % 256 == b[0] && FromLE(b) / 256 == FromLE(b[1..]);
    }
  }

  /** Equal little-endian renderings of in-range numbers come from equal numbers. */
  lemma ToLEInjective(m: nat, n: nat, k: nat)
    requires m < Pow256(k) && n < Pow256(k)
    requires ToLE(m, k) == ToLE(n, k)
    ensures m == n
  {
    FromToLE(m, k);
    FromToLE(n, k);
  }

  /** Two's complement on k bytes. */
  function ToLESigned(n: int, k: nat): (b: bytes)
    requires 0 <= n + Pow256(k)
    ensures |b| == k
  {
    ToLE(if n < 0 then n + Pow256(k) else n, k)
  }

  function FromLESigned(b: bytes): (n: int)
    ensures 0 <= 2 * n + Pow256(|b|)
    ensures b != [] ==> 2 * n < Pow256(|b|)
  {
    var u := FromLE(b);
    if 2 * u >= Pow256(|b|) then u - Pow256(|b|) else u
  }

  lemma FromToLESigned(n: int, k: nat)
    requires 0 <= 2 * n + Pow256(k) && 2 * n < Pow256(k)
    ensures FromLESigned(ToLESigned(n, k)) == n
  {
    FromToLE(if n < 0 then n + Pow256(k) else n, k);
  }

  lemma ToFromLESigned(b: bytes)
    ensures ToLESigned(FromLESigned(b), |b|) == b
  {
    ToFromLE(b);
    var u := FromLE(b);
    if 2 * u >= Pow256(|b|) {
      assert FromLESigned(b) == u - Pow256(|b|) < 0;
    }
  }

  /** `buf.subarray(n)`: clamps to the end of the buffer. */
  function Skip(b: bytes, n: nat): (r: bytes)
    ensures |r| <= |b|
  {
    if n <= |b| then b[n..] else []
  }

  /** `buf.subarray(from, from + n)`: clamps to the end of the buffer. */
  function Take(b: bytes, from: nat, n: nat): (r: bytes)
    ensures |r| <= n
  {
    if from + n <= |b| then b[from..from + n]
    else if from <= |b| then b[from..]
    else []
  }

  function Zeros(n: nat): (b: bytes)
    ensures |b| == n
  {
    seq(n, _ => 0)
  }
}
