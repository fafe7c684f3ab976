/** Little-endian byte strings, and the two views of them that the reader needs:
    `Get*` is what a memcpy out of a buffer yields, `At` says what a buffer holds. */
module Bytes {
  type byte = x: int | 0 <= x < 0x100
  type u16 = x: int | 0 <= x < 0x1_0000
  type u32 = x: int | 0 <= x < 0x1_0000_0000
  type u64 = x: int | 0 <= x < 0x1_0000_0000_0000_0000

  /** `Fault` stands for behaviour the C program leaves undefined: a read outside
      the buffer, or a copy with a negative length. */
  datatype Result<+T> = Ok(value: T) | Fault {
    predicate IsFailure() { Fault? }

    function PropagateFailure<U>(): Result<U>
      requires Fault?
    {
      Fault
    }

    function Extract(): T
      requires Ok?
    {
      value
    }
  }

  datatype Option<+T> = None | Some(value: T)

  function Pow256(n: nat): (p: nat)
    ensures p > 0
  {
    if n == 0 then 1 else 256 * Pow256(n - 1)
  }

  lemma Widths()
    ensures Pow256(2) == 0x1_0000
    ensures Pow256(4) == 0x1_0000_0000
    ensures Pow256(8) == 0x1_0000_0000_0000_0000
  {
    assert Pow256(1) == 0x100;
    assert Pow256(3) == 0x100_0000;
    assert Pow256(5) == 0x100_0000_0000;
    assert Pow256(6) == 0x1_0000_0000_0000;
    assert Pow256(7) == 0x100_0000_0000_0000;
  }

  /** The n low bytes of v, least significant first. */
  function LE(v: nat, n: nat): (b: seq<byte>)
    ensures |b| == n
  {
    if n == 0 then [] else [v % 256] + LE(v / 256, n - 1)
  }

  function FromLE(b: seq<byte>): (v: nat)
    ensures v < Pow256(|b|)
  {
    if b == [] then 0 else b[0] + 256 * FromLE(b[1..])
  }

  lemma {:induction false} FromLEInvertsLE(v: nat, n: nat)
    requires v < Pow256(n)
    ensures FromLE(LE(v, n)) == v
  {
    if n > 0 {
      FromLEInvertsLE(v / 256, n - 1);
      assert LE(v, n)[1..] == LE(v / 256, n - 1);
    }
  }

  lemma LowByte(low: byte, rest: nat)
    ensures (low + 256 * rest) % 256 == low && (low + 256 * rest) / 256 == rest
  {
  }

  lemma {:induction false} LEInvertsFromLE(b: seq<byte>)
    ensures LE(FromLE(b), |b|) == b
  {
    if b != [] {
      LEInvertsFromLE(b[1..]);
      LowByte(b[0], FromLE(b[1..]));
      assert b == [b[0]] + b[1..];
    }
  }

  function U16(v: u16): (b: seq<byte>)
    ensures |b| == 2
  {
    LE(v, 2)
  }

  function U32(v: u32): (b: seq<byte>)
    ensures |b| == 4
  {
    LE(v, 4)
  }

  function U64(v: u64): (b: seq<byte>)
    ensures |b| == 8
  {
    LE(v, 8)
  }

  /** Buffer d holds the bytes b at offset off. */
  ghost predicate At(d: seq<byte>, off: nat, b: seq<byte>) {
    b != [] ==> off + |b| <= |d| && d[off..off + |b|] == b
  }

  lemma AtEmpty(d: seq<byte>, off: nat)
    ensures At(d, off, [])
  {
  }

  lemma AtWhole(b: seq<byte>)
    ensures At(b, 0, b)
  {
    assert b[0..|b|] == b;
  }

  /** One place holds one string of a given length. */
  lemma AtSame(d: seq<byte>, off: nat, a: seq<byte>, b: seq<byte>)
    requires At(d, off, a) && At(d, off, b) && |a| == |b|
    ensures a == b
  {
  }

  lemma AtConcat(d: seq<byte>, off: nat, a: seq<byte>, b: seq<byte>)
    ensures At(d, off, a + b) <==> At(d, off, a) && At(d, off + |a|, b)
  {
    if a == [] {
      assert a + b == b;
    } else if b == [] {
      assert a + b == a;
    } else {
      if At(d, off, a + b) {
        var s := d[off..off + |a + b|];
        assert s[..|a|] == d[off..off + |a|];
        assert s[|a|..] == d[off + |a|..off + |a| + |b|];
      }
      if At(d, off, a) && At(d, off + |a|, b) {
        assert d[off..off + |a + b|] == d[off..off + |a|] + d[off + |a|..off + |a| + |b|];
      }
    }
  }

  function GetU16(d: seq<byte>, off: nat): (r: Result<u16>) {
    if off + 2 <= |d| then Widths(); Ok(FromLE(d[off..off + 2])) else Fault
  }

  function GetU32(d: seq<byte>, off: nat): (r: Result<u32>) {
    if off + 4 <= |d| then Widths(); Ok(FromLE(d[off..off + 4])) else Fault
  }

  function GetU64(d: seq<byte>, off: nat): (r: Result<u64>) {
    if off + 8 <= |d| then Widths(); Ok(FromLE(d[off..off + 8])) else Fault
  }

  function GetBytes(d: seq<byte>, off: nat, n: int): (r: Result<seq<byte>>)
    ensures r.Ok? ==> |r.value| == n
  {
    if n == 0 then Ok([]) else if 0 <= n && off + n <= |d| then Ok(d[off..off + n]) else Fault
  }

  /** Reading a field and holding its encoding are the same thing. */
  lemma GetU16Law(d: seq<byte>, off: nat, v: u16)
    ensures GetU16(d, off) == Ok(v) <==> At(d, off, U16(v))
  {
    Widths();
    FromLEInvertsLE(v, 2);
    if off + 2 <= |d| { LEInvertsFromLE(d[off..off + 2]); }
  }

  lemma GetU32Law(d: seq<byte>, off: nat, v: u32)
    ensures GetU32(d, off) == Ok(v) <==> At(d, off, U32(v))
  {
    Widths();
    FromLEInvertsLE(v, 4);
    if off + 4 <= |d| { LEInvertsFromLE(d[off..off + 4]); }
  }

  lemma GetU64Law(d: seq<byte>, off: nat, v: u64)
    ensures GetU64(d, off) == Ok(v) <==> At(d, off, U64(v))
  {
    Widths();
    FromLEInvertsLE(v, 8);
    if off + 8 <= |d| { LEInvertsFromLE(d[off..off + 8]); }
  }

  lemma GetBytesLaw(d: seq<byte>, off: nat, b: seq<byte>)
    ensures GetBytes(d, off, |b|) == Ok(b) <==> At(d, off, b)
  {
  }

  /** A run of n zero bytes. */
  function Zeros(n: nat): (z: seq<byte>)
    ensures |z| == n && forall i :: 0 <= i < n ==> z[i] == 0
  {
    seq(n, _ => 0)
  }

  lemma {:induction false} LEZero(n: nat)
    ensures LE(0, n) == Zeros(n)
  {
    if n > 0 { LEZero(n - 1); }
  }
}
