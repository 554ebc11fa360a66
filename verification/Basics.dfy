/** Shared vocabulary: bytes, optional values, results, and the big-endian integers every wire format uses. */
module Basics {
  type byte = x: int | 0 <= x < 256
  type bytes = seq<byte>

  datatype Option<+T> = None | Some(value: T)

  datatype Result<+T, +E> = Ok(value: T) | Err(error: E)

  const TWO16 := 0x1_0000
  const TWO32 := 0x1_0000_0000

  // The low bits of n, most significant byte first. Conversions such as Go's uint32(n) keep
  // the low bits of any integer, so values outside the width wrap.
  function BigEndian(n: int, width: nat): (b: bytes)
    ensures |b| == width
    decreases width
  {
    if width == 0 then [] else BigEndian(n / 256, width - 1) + [n % 256]
  }

  function FromBigEndian(b: bytes): nat {
    if b == [] then 0
    else
      var high: int, low: int := FromBigEndian(b[..|b| - 1]), b[|b| - 1];
      256 * high + low
  }

  const WIDTH16: nat := 2
  const WIDTH32: nat := 4
  const WIDTH64: nat := 8

  function U16(n: int): (b: bytes)
    ensures |b| == 2
  {
    BigEndian(n, WIDTH16)
  }

  function U32(n: int): (b: bytes)
    ensures |b| == 4
  {
    BigEndian(n, WIDTH32)
  }

  function U64(n: int): (b: bytes)
    ensures |b| == 8
  {
    BigEndian(n, WIDTH64)
  }

  function Pow256(k: nat): (p: int)
    ensures p >= 1
  {
    if k == 0 then 1 else 256 * Pow256(k - 1)
  }

  lemma {:induction false} BigEndianDecodes(n: int, width: nat)
    ensures FromBigEndian(BigEndian(n, width)) == n % Pow256(width)
    decreases width
  {
    if width > 0 {
      BigEndianDecodes(n / 256, width - 1);
      var p := Pow256(width - 1);
      assert BigEndian(n, width)[..width - 1] == BigEndian(n / 256, width - 1);
      SplitRemainder(n, p);
    }
  }

  // n mod 256p, digit by digit
  lemma SplitRemainder(n: int, p: int)
    requires p >= 1
    ensures n % (256 * p) == 256 * (n / 256 % p) + n % 256
  {
    var q, r := n / 256 / p, n / 256 % p;
    var d, s := 256 * p, 256 * r + n % 256;
    assert n / 256 == q * p + r;
    assert 256 * (q * p) == q * d;
    assert n == q * d + s;
    RemainderIsUnique(n, d, q, s);
  }

  lemma RemainderIsUnique(n: int, d: int, q: int, r: int)
    requires 0 <= r < d && n == q * d + r
    ensures n % d == r
  {
    var q', r' := n / d, n % d;
    assert n == q' * d + r';
    assert (q - q') * d == r' - r;
    MultipleOutgrows(q - q', d);
    MultipleOutgrows(q' - q, d);
    assert (q' - q) * d == r - r';
  }

  lemma MultipleOutgrows(k: int, d: int)
    requires d >= 1
    ensures k >= 1 ==> k * d >= d
  {
  }

  lemma {:induction false} BigEndianEncodes(b: bytes)
    ensures BigEndian(FromBigEndian(b), |b|) == b
    ensures FromBigEndian(b) < Pow256(|b|)
  {
    if b != [] {
      var last := |b| - 1;
      BigEndianEncodes(b[..last]);
      var high: int, low: int := FromBigEndian(b[..last]), b[last];
      assert (256 * high + low) / 256 == high && (256 * high + low) % 256 == low;
      assert b == b[..last] + [b[last]];
    }
  }

  // Two integers share their bytes exactly when they agree modulo the width
  lemma SameBytesSameResidue(m: int, n: int, width: nat)
    ensures BigEndian(m, width) == BigEndian(n, width) <==> m % Pow256(width) == n % Pow256(width)
  {
    BigEndianDecodes(m, width);
    BigEndianDecodes(n, width);
    BigEndianEncodes(BigEndian(m, width));
    BigEndianEncodes(BigEndian(n, width));
  }

  lemma Widths()
    ensures Pow256(WIDTH16) == TWO16 && Pow256(WIDTH32) == TWO32
  {
    assert Pow256(1) == 256 && Pow256(2) == TWO16 && Pow256(3) == 0x100_0000 && Pow256(4) == TWO32;
  }

  lemma U32SameBytes(m: int, n: int)
    ensures U32(m) == U32(n) <==> m % TWO32 == n % TWO32
  {
    Widths();
    SameBytesSameResidue(m, n, WIDTH32);
  }

  lemma U32Injective(m: int, n: int)
    requires 0 <= m < TWO32 && 0 <= n < TWO32
    ensures U32(m) == U32(n) ==> m == n
  {
    U32SameBytes(m, n);
  }

  lemma U16Decodes(n: int)
    ensures FromBigEndian(U16(n)) == n % TWO16
  {
    Widths();
    BigEndianDecodes(n, WIDTH16);
  }

  // Cutting equal concatenations at equal lengths gives equal halves.
  lemma SplitConcat<T>(a: seq<T>, x: seq<T>, b: seq<T>, y: seq<T>)
    requires a + x == b + y && |a| == |b|
    ensures a == b && x == y
  {
    assert a == (a + x)[..|a|] && b == (b + y)[..|b|];
    assert x == (a + x)[|a|..] && y == (b + y)[|b|..];
  }

  function Concat(parts: seq<bytes>): bytes {
    if parts == [] then [] else Concat(parts[..|parts| - 1]) + parts[|parts| - 1]
  }

  lemma {:induction false} ConcatFirst(parts: seq<bytes>)
    requires parts != []
    ensures Concat(parts) == parts[0] + Concat(parts[1..])
  {
    var last := |parts| - 1;
    if last > 0 {
      ConcatFirst(parts[..last]);
      assert parts[..last][1..] == parts[1..][..last - 1];
    } else {
      assert parts[..last] == [] && parts[1..] == [];
    }
  }

  lemma {:induction false} ConcatLength(parts: seq<bytes>, n: nat)
    requires forall i :: 0 <= i < |parts| ==> |parts[i]| == n
    ensures |Concat(parts)| == n * |parts|
  {
    if parts == [] {
      assert n * |parts| == 0;
    } else {
      var k := |parts| - 1;
      ConcatLength(parts[..k], n);
      assert n * (k + 1) == n * k + n;
    }
  }

  // The two field lists are cut alike: wherever they agree so far, their next fields have one length
  ghost predicate CutAlike(p: seq<bytes>, q: seq<bytes>) {
    |p| == |q| && forall i :: 0 <= i < |p| && p[..i] == q[..i] ==> |p[i]| == |q[i]|
  }

  // Fields that announce their own lengths can be told apart inside one concatenation, whatever follows
  lemma {:induction false} FieldsAgree(p: seq<bytes>, x: bytes, q: seq<bytes>, y: bytes)
    requires CutAlike(p, q) && Concat(p) + x == Concat(q) + y
    ensures p == q && x == y
  {
    if p == [] {
      assert Concat(p) + x == x && Concat(q) + y == y;
    } else {
      var px, qy := Concat(p[1..]) + x, Concat(q[1..]) + y;
      ConcatFirst(p);
      ConcatFirst(q);
      assert Concat(p) + x == p[0] + px && Concat(q) + y == q[0] + qy;
      assert p[..0] == q[..0];
      SplitConcat(p[0], px, q[0], qy);
      forall i | 0 <= i < |p| - 1 && p[1..][..i] == q[1..][..i] ensures |p[1..][i]| == |q[1..][i]| {
        assert p[..i + 1] == [p[0]] + p[1..][..i] && q[..i + 1] == [q[0]] + q[1..][..i];
      }
      FieldsAgree(p[1..], x, q[1..], y);
      assert p == [p[0]] + p[1..] && q == [q[0]] + q[1..];
    }
  }
}
