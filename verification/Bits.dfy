/** Bit strings, most significant bit first, and the bytes they stand for. */
module Bits {
  type Bits = seq<bool>
  type byte = x: int | 0 <= x < 256

  function Zeros(n: nat): (z: Bits)
    ensures |z| == n
    ensures forall i :: 0 <= i < n ==> !z[i]
  {
    seq(n, _ => false)
  }

  function Xor(a: Bits, b: Bits): (c: Bits)
    requires |a| == |b|
    ensures |c| == |a|
    ensures forall i :: 0 <= i < |a| ==> c[i] == (a[i] != b[i])
  {
    seq(|a|, i requires 0 <= i < |a| => a[i] != b[i])
  }

  /** The `width` low binary digits of `n`. */
  function FromNat(n: nat, width: nat): (b: Bits)
    ensures |b| == width
    decreases width
  {
    if width == 0 then [] else FromNat(n / 2, width - 1) + [n % 2 == 1]
  }

  lemma FromNatLast(n: nat, width: nat)
    requires width > 0
    ensures FromNat(n, width)[width - 1] == (n % 2 == 1)
  {
  }

  function ToNat(b: Bits): nat {
    if b == [] then 0 else 2 * ToNat(b[..|b| - 1]) + (if b[|b| - 1] then 1 else 0)
  }

  function Pow2(n: nat): (p: nat)
    ensures p > 0
  {
    if n == 0 then 1 else 2 * Pow2(n - 1)
  }

  lemma {:induction false} ToNatBound(b: Bits)
    ensures ToNat(b) < Pow2(|b|)
  {
    if b != [] {
      ToNatBound(b[..|b| - 1]);
    }
  }

  /** Reading a bit string as a number and writing it back loses nothing. */
  lemma {:induction false} ToFromNat(b: Bits)
    ensures FromNat(ToNat(b), |b|) == b
  {
    if b != [] {
      ToFromNat(b[..|b| - 1]);
    }
  }

  lemma {:induction false} FromToNat(n: nat, width: nat)
    requires n < Pow2(width)
    ensures ToNat(FromNat(n, width)) == n
    decreases width
  {
    if width != 0 {
      FromToNat(n / 2, width - 1);
      assert FromNat(n, width)[..width - 1] == FromNat(n / 2, width - 1);
    }
  }

  function ByteBits(b: byte): (r: Bits)
    ensures |r| == 8
  {
    FromNat(b, 8)
  }

  lemma ByteOfBits(b: Bits)
    requires |b| == 8
    ensures 0 <= ToNat(b) < 256
    ensures ByteBits(ToNat(b)) == b
  {
    ToNatBound(b);
    assert Pow2(8) == 256;
    ToFromNat(b);
  }

  lemma ByteBitsInjective(a: byte, b: byte)
    requires ByteBits(a) == ByteBits(b)
    ensures a == b
  {
    assert Pow2(8) == 256;
    FromToNat(a, 8);
    FromToNat(b, 8);
  }

  /** The bits of a byte string, in transmission order. */
  function Flatten(s: seq<byte>): (b: Bits)
    ensures |b| == 8 * |s|
  {
    if s == [] then [] else Flatten(s[..|s| - 1]) + ByteBits(s[|s| - 1])
  }

  lemma FlattenNext(s: seq<byte>, k: nat)
    requires k < |s|
    ensures Flatten(s[..k + 1]) == Flatten(s[..k]) + ByteBits(s[k])
  {
    assert s[..k + 1][..k] == s[..k];
  }

  lemma {:induction false} FlattenAt(s: seq<byte>, k: nat)
    requires k < |s|
    ensures Flatten(s)[8 * k..8 * k + 8] == ByteBits(s[k])
  {
    hide ByteBits;
    if k < |s| - 1 {
      FlattenAt(s[..|s| - 1], k);
    }
  }

  lemma {:induction false} FlattenAppend(s: seq<byte>, t: seq<byte>)
    ensures Flatten(s + t) == Flatten(s) + Flatten(t)
  {
    hide ByteBits;
    if t == [] {
      assert s + t == s;
    } else {
      var u := t[..|t| - 1];
      FlattenAppend(s, u);
      assert (s + t)[..|s + t| - 1] == s + u;
    }
  }

  lemma FlattenSplit(s: seq<byte>, k: nat)
    requires k <= |s|
    ensures Flatten(s)[..8 * k] == Flatten(s[..k])
    ensures Flatten(s)[8 * k..] == Flatten(s[k..])
  {
    assert s == s[..k] + s[k..];
    FlattenAppend(s[..k], s[k..]);
  }
}
