/**
 * Byte strings and the fixed-width big-endian integers that `solidityPack`
 * writes for `uintN` and `bytesN` fields.
 */
module Bytes {
  import opened Arithmetic

  type Byte = b: nat | b < 256

  /** A 20-byte account or contract address. */
  type Address = s: seq<Byte> | |s| == 20 witness seq(20, i => 0)

  function Pow256(n: nat): (r: nat)
    ensures r > 0
  {
    if n == 0 then 1 else 256 * Pow256(n - 1)
  }

  /** `x` written big-endian in exactly `width` bytes; the packer refuses a value that does not fit. */
  function UintBE(x: nat, width: nat): (r: seq<Byte>)
    requires x < Pow256(width)
    ensures |r| == width
  {
    if width == 0 then [] else UintBE(x / 256, width - 1) + [x % 256]
  }

  /** The unsigned integer whose big-endian bytes are `s`. */
  function ToNat(s: seq<Byte>): (r: nat)
    ensures r < Pow256(|s|)
  {
    if s == [] then 0 else ToNat(s[..|s| - 1]) * 256 + s[|s| - 1]
  }

  lemma {:induction false} ToNatUintBE(x: nat, width: nat)
    requires x < Pow256(width)
    ensures ToNat(UintBE(x, width)) == x
  {
    if width > 0 {
      var s := UintBE(x, width);
      assert s[..width - 1] == UintBE(x / 256, width - 1);
      ToNatUintBE(x / 256, width - 1);
    }
  }

  lemma {:induction false} UintBEToNat(s: seq<Byte>)
    ensures UintBE(ToNat(s), |s|) == s
  {
    if s != [] {
      var n := ToNat(s);
      var init := s[..|s| - 1];
      assert n / 256 == ToNat(init) && n % 256 == s[|s| - 1];
      UintBEToNat(init);
      assert s == init + [s[|s| - 1]];
    }
  }

  lemma ShiftStep(x: nat, p: nat, y: nat, l: nat)
    ensures (x * p + y) * 256 + l == x * (p * 256) + (y * 256 + l)
  {
  }

  /** The value of a concatenation: the high part shifted by the width of the low part. */
  lemma {:induction false} ToNatConcat(a: seq<Byte>, b: seq<Byte>)
    ensures ToNat(a + b) == ToNat(a) * Pow256(|b|) + ToNat(b)
  {
    if b != [] {
      var b' := b[..|b| - 1];
      assert (a + b)[..|a + b| - 1] == a + b';
      ToNatConcat(a, b');
      assert ToNat(a + b) == ToNat(a + b') * 256 + b[|b| - 1];
      assert Pow256(|b|) == Pow256(|b'|) * 256;
      ShiftStep(ToNat(a), Pow256(|b'|), ToNat(b'), b[|b| - 1]);
    } else {
      assert a + b == a;
    }
  }

  lemma ConcatLow(hi: seq<Byte>, lo: seq<Byte>)
    ensures ToNat(hi + lo) % Pow256(|lo|) == ToNat(lo)
  {
    ToNatConcat(hi, lo);
    DivModUnique(ToNat(hi), Pow256(|lo|), ToNat(lo));
  }

  /** The last `k` bytes of `s` hold the value of `s` modulo 256^k (the cast to a narrower uint). */
  lemma LowBytes(s: seq<Byte>, k: nat)
    requires k <= |s|
    ensures ToNat(s[|s| - k..]) == ToNat(s) % Pow256(k)
  {
    assert s == s[..|s| - k] + s[|s| - k..];
    ConcatLow(s[..|s| - k], s[|s| - k..]);
  }

  /** A byte string is the concatenation of its three pieces around two cut points. */
  lemma SplitThree(s: seq<Byte>, i: nat, j: nat)
    requires i <= j <= |s|
    ensures s == s[..i] + s[i..j] + s[j..]
  {
    assert s[..j] == s[..i] + s[i..j];
  }

  /** Regrouping a concatenation of five byte strings. */
  lemma Regroup(a: seq<Byte>, b: seq<Byte>, c: seq<Byte>, d: seq<Byte>, e: seq<Byte>)
    ensures a + b + c + d + e == (a + b) + (c + d + e)
  {
  }
}
