/**
 Byte strings: splicing a piece into a buffer (a memcpy, or one write to a block device) and
 little-endian fields. Both GPT paths of gpt-utils are built from these two operations.
 */
module Bytes {

  type byte = b: int | 0 <= b < 0x100
  type u32 = n: int | 0 <= n < 0x1_0000_0000

  type ByteString = seq<byte>

  /** `b` with `x` copied over it at offset `o`. */
  function Splice(b: ByteString, o: nat, x: ByteString): (r: ByteString)
    requires o + |x| <= |b|
    ensures |r| == |b|
  {
    b[..o] + x + b[o + |x|..]
  }

  /** A reader of the spliced range sees the new piece. */
  lemma SpliceHit(b: ByteString, o: nat, x: ByteString)
    requires o + |x| <= |b|
    ensures Splice(b, o, x)[o..o + |x|] == x
  {
  }

  /** A reader of a longer range sees the new piece and then the old bytes. */
  lemma SpliceStart(b: ByteString, o: nat, x: ByteString, n: nat)
    requires |x| <= n && o + n <= |b|
    ensures Splice(b, o, x)[o..o + n] == x + b[o..o + n][|x|..]
  {
  }

  /** A reader of a disjoint range sees the old bytes. */
  lemma SpliceMiss(b: ByteString, o: nat, x: ByteString, lo: nat, hi: nat)
    requires o + |x| <= |b| && lo <= hi <= |b|
    requires hi <= o || o + |x| <= lo
    ensures Splice(b, o, x)[lo..hi] == b[lo..hi]
  {
  }

  /** A second splice over the same range replaces the first. */
  lemma SpliceOver(b: ByteString, o: nat, x: ByteString, y: ByteString)
    requires |x| == |y| && o + |x| <= |b|
    ensures Splice(Splice(b, o, x), o, y) == Splice(b, o, y)
  {
  }

  lemma SpliceWhole(b: ByteString, x: ByteString)
    requires |x| == |b|
    ensures Splice(b, 0, x) == x && x[0..|x|] == x
  {
  }

  /** A splice is one of any longer range that keeps the bytes behind it. */
  lemma SpliceWide(b: ByteString, o: nat, x: ByteString, n: nat)
    requires |x| <= n && o + n <= |b|
    ensures Splice(b, o, x) == Splice(b, o, x + b[o..o + n][|x|..])
  {
  }

  /** Splices of disjoint ranges commute. */
  lemma SpliceCommutes(b: ByteString, o: nat, x: ByteString, p: nat, y: ByteString)
    requires o + |x| <= p && p + |y| <= |b|
    ensures Splice(Splice(b, o, x), p, y) == Splice(Splice(b, p, y), o, x)
  {
  }

  /** Splicing back what a range already holds changes nothing. */
  lemma SpliceBack(b: ByteString, o: nat, n: nat)
    requires o + n <= |b|
    ensures Splice(b, o, b[o..o + n]) == b
  {
  }

  /** Agreement on a range is agreement on every range inside it. */
  lemma SliceAgrees(a: ByteString, b: ByteString, lo: nat, hi: nat, i: nat, j: nat)
    requires lo <= i <= j <= hi <= |a| && hi <= |b|
    requires a[lo..hi] == b[lo..hi]
    ensures a[i..j] == b[i..j]
  {
    forall k | i <= k < j ensures a[k] == b[k] {
      assert a[lo..hi][k - lo] == b[lo..hi][k - lo];
    }
  }

  /** The product, as repeated addition: it keeps offsets linear for the verifier. */
  function Times(n: nat, c: nat): (r: nat) {
    if n == 0 then 0 else Times(n - 1, c) + c
  }

  lemma {:induction false} TimesIsProduct(n: nat, c: nat)
    ensures Times(n, c) == n * c
  {
    if n > 0 {
      TimesIsProduct(n - 1, c);
      assert n * c == (n - 1) * c + c;
    }
  }

  lemma {:induction false} TimesStep(a: nat, b: nat, c: nat)
    requires a < b
    ensures Times(a, c) + c <= Times(b, c)
    decreases b
  {
    if a < b - 1 {
      TimesStep(a, b - 1, c);
    }
  }

  /** The little-endian digits of `v`, least significant first. */
  function Le(v: nat, n: nat): (r: ByteString)
    ensures |r| == n
  {
    if n == 0 then [] else [v % 0x100] + Le(v / 0x100, n - 1)
  }

  /** The number that a little-endian byte string spells. */
  function Val(b: ByteString): (v: nat) {
    if b == [] then 0 else b[0] as int + 0x100 * Val(b[1..])
  }

  function Pow256(n: nat): (r: nat) {
    if n == 0 then 1 else 0x100 * Pow256(n - 1)
  }

  lemma {:induction false} ValOfLe(v: nat, n: nat)
    requires v < Pow256(n)
    ensures Val(Le(v, n)) == v
  {
    if n > 0 {
      ValOfLe(v / 0x100, n - 1);
      assert Le(v, n)[1..] == Le(v / 0x100, n - 1);
    }
  }

  lemma {:induction false} ValInjective(a: ByteString, b: ByteString)
    requires |a| == |b| && Val(a) == Val(b)
    ensures a == b
  {
    if a != [] {
      assert a[0] == b[0];
      ValInjective(a[1..], b[1..]);
      assert a == [a[0]] + a[1..] && b == [b[0]] + b[1..];
    }
  }

  lemma {:induction false} ValBound(b: ByteString)
    ensures Val(b) < Pow256(|b|)
  {
    if b != [] {
      ValBound(b[1..]);
    }
  }

  function Get4(b: ByteString, o: nat): (v: u32)
    requires o + 4 <= |b|
  {
    ValBound(b[o..o + 4]);
    assert Pow256(4) == 0x1_0000_0000;
    Val(b[o..o + 4])
  }

  lemma Get4Injective(a: ByteString, b: ByteString, o: nat)
    requires o + 4 <= |a| && o + 4 <= |b| && Get4(a, o) == Get4(b, o)
    ensures a[o..o + 4] == b[o..o + 4]
  {
    ValInjective(a[o..o + 4], b[o..o + 4]);
  }

  function Get8(b: ByteString, o: nat): (v: nat)
    requires o + 8 <= |b|
  {
    Val(b[o..o + 8])
  }

  function Put4(b: ByteString, o: nat, v: u32): (r: ByteString)
    requires o + 4 <= |b|
    ensures |r| == |b|
  {
    Splice(b, o, Le(v, 4))
  }

  /** A field reads back what was put into it. */
  lemma Get4OfPut4(b: ByteString, o: nat, v: u32)
    requires o + 4 <= |b|
    ensures Get4(Put4(b, o, v), o) == v
  {
    assert Pow256(4) == 0x1_0000_0000;
    ValOfLe(v, 4);
    SpliceHit(b, o, Le(v, 4));
  }

  /** PUT_4_BYTES in place: byte k receives the bits from 8k up, masked to eight. */
  method PutFourBytes(buf: array<byte>, o: nat, v: u32)
    requires o + 4 <= buf.Length
    modifies buf
    ensures buf[..] == Put4(old(buf[..]), o, v)
  {
    buf[o] := v % 0x100;
    buf[o + 1] := v / 0x100 % 0x100;
    buf[o + 2] := v / 0x1_0000 % 0x100;
    buf[o + 3] := v / 0x100_0000 % 0x100;
    LeFour(v);
  }

  lemma LeFour(v: u32)
    ensures Le(v, 4) == [v % 0x100, v / 0x100 % 0x100, v / 0x1_0000 % 0x100, v / 0x100_0000 % 0x100]
  {
    assert v / 0x1_0000 == v / 0x100 / 0x100;
    assert v / 0x100_0000 == v / 0x100 / 0x100 / 0x100;
    assert Le(v / 0x100 / 0x100 / 0x100, 1) == [v / 0x100 / 0x100 / 0x100 % 0x100];
    assert Le(v / 0x100 / 0x100, 2) == [v / 0x100 / 0x100 % 0x100, v / 0x100 / 0x100 / 0x100 % 0x100];
  }

  /** memcpy between buffers, or inside one when the ranges do not overlap. */
  method MemCpy(dst: array<byte>, o: nat, src: array<byte>, from: nat, n: nat)
    requires o + n <= dst.Length && from + n <= src.Length
    requires dst == src ==> o + n <= from || from + n <= o
    modifies dst
    ensures dst[..] == Splice(old(dst[..]), o, old(src[from..from + n]))
  {
    forall i | 0 <= i < n {
      dst[o + i] := src[from + i];
    }
  }
}
