/**
 * Bytes and the big-endian integer layouts of the AOF container, the reads
 * of Node's `Buffer` that the decoder makes at an offset, and the two
 * operations of `Buffer` that the encoder relies on: writing bytes at an
 * offset of a fixed-size buffer, and concatenating two buffers into a new one.
 */
module Bytes {

  type Byte = b: int | 0 <= b < 256

  const TWO_16: int := 0x1_0000
  const TWO_31: int := 0x8000_0000
  const TWO_32: int := 0x1_0000_0000
  const TWO_64: int := 0x1_0000_0000_0000_0000

  predicate IsU16(x: int) { 0 <= x < TWO_16 }
  predicate IsU32(x: int) { 0 <= x < TWO_32 }
  predicate IsI32(x: int) { -TWO_31 <= x < TWO_31 }

  /** The two bytes `writeUInt16BE` stores, most significant first. */
  function U16BE(x: int): (r: seq<Byte>)
    requires IsU16(x)
    ensures |r| == 2
  {
    [x / 256, x % 256]
  }

  /** The four bytes `writeUInt32BE` stores: the high half, then the low half. */
  function U32BE(x: int): (r: seq<Byte>)
    requires IsU32(x)
    ensures |r| == 4
  {
    U16BE(x / TWO_16) + U16BE(x % TWO_16)
  }

  /** `writeInt32BE`: the 32-bit two's complement of `x`, big-endian. */
  function I32BE(x: int): (r: seq<Byte>)
    requires IsI32(x)
    ensures |r| == 4
  {
    U32BE(if x < 0 then x + TWO_32 else x)
  }

  /** `x` is found in `b` at offset `c`. */
  ghost predicate At(b: seq<Byte>, c: nat, x: seq<Byte>)
  {
    c + |x| <= |b| && forall k :: 0 <= k < |x| ==> b[c + k] == x[k]
  }

  lemma {:induction false} AtSplit(b: seq<Byte>, c: nat, x: seq<Byte>, y: seq<Byte>)
    requires At(b, c, x + y)
    ensures At(b, c, x) && At(b, c + |x|, y)
  {
    forall k | 0 <= k < |x| ensures b[c + k] == x[k] {
      assert (x + y)[k] == x[k];
    }
    forall k | 0 <= k < |y| ensures b[c + |x| + k] == y[k] {
      assert (x + y)[|x| + k] == y[k];
    }
  }

  lemma {:induction false} AtJoin(b: seq<Byte>, c: nat, x: seq<Byte>, y: seq<Byte>)
    requires At(b, c, x) && At(b, c + |x|, y)
    ensures At(b, c, x + y)
  {
    forall k | 0 <= k < |x| + |y| ensures b[c + k] == (x + y)[k] {
      if k >= |x| {
        assert b[c + k] == b[c + |x| + (k - |x|)];
      }
    }
  }

  /** `buf.slice(c, c + n)`: the `n` bytes from offset `c`. */
  function Slice(b: seq<Byte>, c: nat, n: nat): (r: seq<Byte>)
    requires c + n <= |b|
    ensures |r| == n
  {
    seq(n, k requires 0 <= k < n => b[c + k])
  }

  /** All of `x` is the slice of `b` from `c`. */
  lemma {:induction false} AtAll(b: seq<Byte>, c: nat, x: seq<Byte>)
    requires At(b, c, x)
    ensures Slice(b, c, |x|) == x
  {
    forall k | 0 <= k < |x| ensures Slice(b, c, |x|)[k] == x[k] {
    }
  }

  /** `buf.readUInt16BE(c)`. */
  function U16At(b: seq<Byte>, c: nat): (x: int)
    requires c + 2 <= |b|
    ensures IsU16(x)
  {
    (b[c] as int) * 256 + b[c + 1] as int
  }

  /** `buf.readUInt32BE(c)`. */
  function U32At(b: seq<Byte>, c: nat): (x: int)
    requires c + 4 <= |b|
    ensures IsU32(x)
  {
    U16At(b, c) * TWO_16 + U16At(b, c + 2)
  }

  /** `buf.readInt32BE(c)`: four bytes read as a 32-bit two's complement value. */
  function I32At(b: seq<Byte>, c: nat): (x: int)
    requires c + 4 <= |b|
    ensures IsI32(x)
  {
    var u := U32At(b, c);
    if u < TWO_31 then u else u - TWO_32
  }

  /** What `writeUInt16BE` stored, `readUInt16BE` reads back. */
  lemma {:induction false} U16RoundTrip(b: seq<Byte>, c: nat, x: int)
    requires IsU16(x) && At(b, c, U16BE(x))
    ensures U16At(b, c) == x
  {
    assert b[c] == U16BE(x)[0] && b[c + 1] == U16BE(x)[1];
  }

  /** Any two bytes are what `writeUInt16BE` stores for the value read from them. */
  lemma {:induction false} U16Reencode(b: seq<Byte>, c: nat)
    requires c + 2 <= |b|
    ensures At(b, c, U16BE(U16At(b, c)))
  {
  }

  lemma {:induction false} U32RoundTrip(b: seq<Byte>, c: nat, x: int)
    requires IsU32(x) && At(b, c, U32BE(x))
    ensures U32At(b, c) == x
  {
    AtSplit(b, c, U16BE(x / TWO_16), U16BE(x % TWO_16));
    U16RoundTrip(b, c, x / TWO_16);
    U16RoundTrip(b, c + 2, x % TWO_16);
  }

  lemma {:induction false} U32Reencode(b: seq<Byte>, c: nat)
    requires c + 4 <= |b|
    ensures At(b, c, U32BE(U32At(b, c)))
  {
    var hi, lo := U16At(b, c), U16At(b, c + 2);
    var x := hi * TWO_16 + lo;
    assert x / TWO_16 == hi && x % TWO_16 == lo;
    U16Reencode(b, c);
    U16Reencode(b, c + 2);
    AtJoin(b, c, U16BE(hi), U16BE(lo));
  }

  lemma {:induction false} I32RoundTrip(b: seq<Byte>, c: nat, x: int)
    requires IsI32(x) && At(b, c, I32BE(x))
    ensures I32At(b, c) == x
  {
    U32RoundTrip(b, c, if x < 0 then x + TWO_32 else x);
  }

  lemma {:induction false} I32Reencode(b: seq<Byte>, c: nat)
    requires c + 4 <= |b|
    ensures At(b, c, I32BE(I32At(b, c)))
  {
    U32Reencode(b, c);
  }

  lemma {:induction false} AtSelf(b: seq<Byte>)
    ensures At(b, 0, b)
  {
    forall k | 0 <= k < |b| ensures b[0 + k] == b[k] {
    }
  }

  /** The byte strings of `xs`, one behind the other. */
  function Cat(xs: seq<seq<Byte>>): (r: seq<Byte>)
    decreases |xs|
  {
    if xs == [] then [] else xs[0] + Cat(xs[1..])
  }

  /** The byte strings of `xs` are found one behind the other in `b` from `c` on. */
  ghost predicate Placed(b: seq<Byte>, c: nat, xs: seq<seq<Byte>>)
    decreases |xs|, 1
  {
    xs == [] || FirstPlaced(b, c, xs)
  }

  /** `xs` is not empty, its first string is found at `c` and the others behind it. */
  ghost predicate FirstPlaced(b: seq<Byte>, c: nat, xs: seq<seq<Byte>>)
    decreases |xs|, 0
  {
    xs != [] && At(b, c, xs[0]) && Placed(b, c + |xs[0]|, xs[1..])
  }

  /** Where the concatenation is found, each string is found behind the ones before it. */
  lemma {:induction false} CatPlaced(b: seq<Byte>, c: nat, xs: seq<seq<Byte>>)
    requires At(b, c, Cat(xs))
    ensures Placed(b, c, xs)
    decreases |xs|
  {
    if xs != [] {
      AtSplit(b, c, xs[0], Cat(xs[1..]));
      CatPlaced(b, c + |xs[0]|, xs[1..]);
    }
  }

  lemma {:induction false} CatFive(xs: seq<seq<Byte>>)
    requires |xs| == 5
    ensures Cat(xs) == xs[0] + xs[1] + xs[2] + xs[3] + xs[4]
  {
    assert xs[1..][1..] == xs[2..] && xs[2..][1..] == xs[3..] && xs[3..][1..] == xs[4..];
    assert xs[4..][1..] == [];
    assert Cat(xs[4..]) == xs[4] + Cat([]) == xs[4];
    assert Cat(xs[3..]) == xs[3] + xs[4];
    assert Cat(xs[2..]) == xs[2] + (xs[3] + xs[4]);
    assert Cat(xs[1..]) == xs[1] + (xs[2] + (xs[3] + xs[4]));
  }

  /** Five strings placed from the start of `b`, each at the sum of the lengths before it. */
  lemma {:induction false} PlacedFive(b: seq<Byte>, xs: seq<seq<Byte>>)
    requires |xs| == 5 && Placed(b, 0, xs)
    ensures var c1 := |xs[0]|;
            var c2 := c1 + |xs[1]|;
            var c3 := c2 + |xs[2]|;
            && At(b, 0, xs[0]) && At(b, c1, xs[1]) && At(b, c2, xs[2])
            && At(b, c3, xs[3]) && At(b, c3 + |xs[3]|, xs[4])
  {
    var c1 := |xs[0]|;
    var c2 := c1 + |xs[1]|;
    var c3 := c2 + |xs[2]|;
    assert xs[1..][1..] == xs[2..] && xs[2..][1..] == xs[3..] && xs[3..][1..] == xs[4..];
    assert FirstPlaced(b, 0, xs);
    assert Placed(b, c1, xs[1..]);
    assert FirstPlaced(b, c1, xs[1..]);
    assert Placed(b, c2, xs[2..]);
    assert FirstPlaced(b, c2, xs[2..]);
    assert Placed(b, c3, xs[3..]);
    assert FirstPlaced(b, c3, xs[3..]);
    assert Placed(b, c3 + |xs[3]|, xs[4..]);
    assert FirstPlaced(b, c3 + |xs[3]|, xs[4..]);
  }

  /** The first three of five strings `u`, `v`, `w`, `x`, `y` placed from the start of `b`. */
  lemma {:induction false} PlacedFirstThree(b: seq<Byte>, xs: seq<seq<Byte>>,
                                            u: seq<Byte>, v: seq<Byte>, w: seq<Byte>, x: seq<Byte>, y: seq<Byte>)
    requires Placed(b, 0, xs) && xs == [u, v, w, x, y]
    ensures At(b, 0, u) && At(b, |u|, v) && At(b, |u| + |v|, w)
  {
    PlacedFive(b, xs);
  }

  /** The last two of five strings `u`, `v`, `w`, `x`, `y` placed from the start of `b`. */
  lemma {:induction false} PlacedLastTwo(b: seq<Byte>, xs: seq<seq<Byte>>,
                                         u: seq<Byte>, v: seq<Byte>, w: seq<Byte>, x: seq<Byte>, y: seq<Byte>)
    requires Placed(b, 0, xs) && xs == [u, v, w, x, y]
    ensures At(b, |u| + |v| + |w|, x) && At(b, |u| + |v| + |w| + |x|, y)
  {
    PlacedFive(b, xs);
  }

  /** Two sequences that agree from `i` on also agree from any later `j` on. */
  lemma {:induction false} SuffixAgrees(a: seq<Byte>, b: seq<Byte>, i: nat, j: nat)
    requires i <= j <= |a| && |a| == |b| && a[i..] == b[i..]
    ensures a[j..] == b[j..]
  {
    assert a[j..] == a[i..][j - i..];
    assert b[j..] == b[i..][j - i..];
  }

  /**
   * `buf.write…(value, offset)`: the bytes of `bytes` are stored from `offset`
   * on; everything before and after them is left as it was.
   */
  method Write(buf: array<Byte>, offset: nat, bytes: seq<Byte>)
    requires offset + |bytes| <= buf.Length
    modifies buf
    ensures buf[..offset + |bytes|] == old(buf[..offset]) + bytes
    ensures forall j :: offset + |bytes| <= j <= buf.Length ==> buf[j..] == old(buf[j..])
  {
    forall k | 0 <= k < |bytes| {
      buf[offset + k] := bytes[k];
    }
    forall j | offset + |bytes| <= j <= buf.Length
      ensures buf[j..] == old(buf[j..])
    {
      assert forall k :: 0 <= k < buf.Length - j ==> buf[j..][k] == old(buf[j..])[k];
    }
    assert buf[..offset + |bytes|] == old(buf[..offset]) + bytes by {
      forall k | 0 <= k < offset + |bytes|
        ensures buf[k] == (old(buf[..offset]) + bytes)[k]
      {
      }
    }
  }

  /**
   * Two writes in turn: `x` written at `c0` turns `a` into `m`, then `y`
   * written right behind it turns `m` into `z`. Then `z` is `a` with `x + y`
   * at `c0`, and the bytes after them are those of `a`.
   */
  lemma {:induction false} WrittenInTurn(a: seq<Byte>, m: seq<Byte>, z: seq<Byte>, c0: nat, x: seq<Byte>, y: seq<Byte>)
    requires |a| == |m| == |z| && c0 + |x| + |y| <= |a|
    requires m[..c0 + |x|] == a[..c0] + x && m[c0 + |x|..] == a[c0 + |x|..]
    requires z[..c0 + |x| + |y|] == m[..c0 + |x|] + y && z[c0 + |x| + |y|..] == m[c0 + |x| + |y|..]
    ensures z[..c0 + |x| + |y|] == a[..c0] + (x + y)
    ensures z[c0 + |x| + |y|..] == a[c0 + |x| + |y|..]
  {
    SuffixAgrees(m, a, c0 + |x|, c0 + |x| + |y|);
  }

  /** `Buffer.concat([a, b])`: a new buffer holding the bytes of `a`, then those of `b`. */
  method Concat(a: array<Byte>, b: array<Byte>) returns (r: array<Byte>)
    ensures fresh(r)
    ensures r[..] == a[..] + b[..]
  {
    r := new Byte[a.Length + b.Length];
    forall k | 0 <= k < a.Length {
      r[k] := a[k];
    }
    forall k | 0 <= k < b.Length {
      r[a.Length + k] := b[k];
    }
    assert r[..] == a[..] + b[..] by {
      forall k | 0 <= k < r.Length
        ensures r[k] == (a[..] + b[..])[k]
      {
      }
    }
  }
}
