/** Byte strings, their concatenation, and the little-endian fixed-width integers of the packet formats. */
module Bytes {
  newtype byte = x: int | 0 <= x < 256

  type bytes = seq<byte>

  const U16: nat := 0x1_0000
  const U32: nat := 0x1_0000_0000

  function Min(a: nat, b: nat): nat {
    if a <= b then a else b
  }

  /** The bytes of a list of pieces, in order (`b"".join`). */
  function Flatten(pieces: seq<bytes>): bytes {
    if pieces == [] then [] else pieces[0] + Flatten(pieces[1..])
  }

  lemma {:induction false} FlattenConcat(a: seq<bytes>, b: seq<bytes>)
    ensures Flatten(a + b) == Flatten(a) + Flatten(b)
  {
    if a == [] {
      assert a + b == b;
    } else {
      assert (a + b)[1..] == a[1..] + b;
      FlattenConcat(a[1..], b);
    }
  }

  lemma FlattenSnoc(a: seq<bytes>, last: bytes)
    ensures Flatten(a + [last]) == Flatten(a) + last
  {
    FlattenConcat(a, [last]);
    assert [last][1..] == [];
    assert Flatten([last]) == last;
  }

  /** A prefix of the list of pieces flattens to a prefix of the bytes. */
  lemma FlattenPrefix(pieces: seq<bytes>, n: nat)
    requires n <= |pieces|
    ensures Flatten(pieces[..n]) <= Flatten(pieces)
  {
    assert pieces == pieces[..n] + pieces[n..];
    FlattenConcat(pieces[..n], pieces[n..]);
  }

  /** A slice of the middle part of a concatenation. */
  lemma MiddleSlice(a: bytes, b: bytes, c: bytes, i: nat, j: nat)
    requires i <= j <= |b|
    ensures (a + b + c)[|a| + i..|a| + j] == b[i..j]
  {
  }

  lemma SliceOfSlice(s: bytes, a: nat, b: nat, i: nat, j: nat)
    requires a <= b <= |s| && i <= j <= b - a
    ensures s[a..b][i..j] == s[a + i..a + j]
  {
    assert forall k :: 0 <= k < j - i ==> s[a..b][i..j][k] == s[a..b][i + k] == s[a + i..a + j][k];
  }

  function Pow256(width: nat): nat {
    if width == 0 then 1 else 256 * Pow256(width - 1)
  }

  /** The low `width` bytes of `v`, least significant first (`struct.pack("<I", v)` for width 4). */
  function LE(v: nat, width: nat): (r: bytes)
    ensures |r| == width
  {
    if width == 0 then [] else [(v % 256) as byte] + LE(v / 256, width - 1)
  }

  function FromLE(b: bytes): nat {
    if b == [] then 0 else b[0] as nat + 256 * FromLE(b[1..])
  }

  lemma {:induction false} UnpackPack(v: nat, width: nat)
    requires v < Pow256(width)
    ensures FromLE(LE(v, width)) == v
  {
    if width > 0 {
      UnpackPack(v / 256, width - 1);
      assert LE(v, width)[1..] == LE(v / 256, width - 1);
    }
  }

  lemma FirstDigit(d: nat, v: nat)
    requires d < 256
    ensures (d + 256 * v) % 256 == d && (d + 256 * v) / 256 == v
  {
  }

  lemma {:induction false} PackUnpack(b: bytes)
    ensures FromLE(b) < Pow256(|b|)
    ensures LE(FromLE(b), |b|) == b
  {
    if b != [] {
      var v := FromLE(b[1..]);
      PackUnpack(b[1..]);
      FirstDigit(b[0] as nat, v);
      assert LE(FromLE(b), |b|) == [b[0]] + LE(v, |b| - 1);
    }
  }

  lemma Widths()
    ensures Pow256(1) == 0x100 && Pow256(2) == U16 && Pow256(4) == U32
    ensures Pow256(8) == U32 * U32
  {
    assert Pow256(1) == 256 * Pow256(0);
    assert Pow256(2) == 256 * Pow256(1);
    assert Pow256(3) == 256 * Pow256(2);
    assert Pow256(4) == 256 * Pow256(3);
    assert Pow256(5) == 256 * Pow256(4);
    assert Pow256(6) == 256 * Pow256(5);
    assert Pow256(7) == 256 * Pow256(6);
    assert Pow256(8) == 256 * Pow256(7);
  }

  lemma U32RoundTrip(v: nat)
    requires v < U32
    ensures FromLE(LE(v, 4)) == v
  {
    Widths();
    UnpackPack(v, 4);
  }
}
