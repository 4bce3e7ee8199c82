/**
  The 12-bit packing of ML-KEM polynomials (section 4.2.1 of FIPS 203) and the check of an
  encapsulation key (section 7.2), as the crypto bundle computes them in 32-bit words.
  */
module MlKemPacking {
  import opened Prelude

  /** A coefficient as the Int16Array holds it, in two's complement. */
  type Coefficient = bv16

  const Q: bv32 := 3329

  datatype Pair = Pair(even: Coefficient, odd: Coefficient)

  datatype Triple = Triple(b0: bv8, b1: bv8, b2: bv8)

  // --- Two coefficients, three bytes -----------------------------------------------------

  function Widened(c: Coefficient): bv32 {
    if c & 0x8000 == 0 then c as bv32 else (c as bv32) | 0xFFFF_0000
  }

  function SignMask(w: bv32): bv32 {
    if w & 0x8000_0000 == 0 then 0 else 0xFFFF_FFFF
  }

  /** Q is subtracted, and added again if that went below zero. */
  function ReducedWord(w: bv32): bv32 {
    var o := w - Q;
    o + (SignMask(o) & Q)
  }

  function Reduced(c: Coefficient): bv32 {
    ReducedWord(Widened(c))
  }

  function LowByte(w: bv32): bv8 {
    (w & 255) as bv8
  }

  function Split(o: bv32, i: bv32): Triple {
    Triple(LowByte(o), LowByte(o >> 8) | LowByte(i << 4), LowByte(i >> 4))
  }

  function Pack(p: Pair): Triple {
    Split(Reduced(p.even), Reduced(p.odd))
  }

  function Unpack(t: Triple): Pair {
    var b0, b1, b2 := t.b0 as bv16, t.b1 as bv16, t.b2 as bv16;
    Pair((b0 | (b1 << 8)) & 4095, ((b1 >> 4) | (b2 << 4)) & 4095)
  }

  predicate IsReduced(c: Coefficient) {
    c < 3329
  }

  /** Three bytes, read as a 24-bit little-endian number. */
  function Word(t: Triple): bv32 {
    (t.b0 as bv32) | ((t.b1 as bv32) << 8) | ((t.b2 as bv32) << 16)
  }

  lemma LowDigit(t: Triple)
    ensures (Unpack(t).even as bv32) == Word(t) & 4095
  {
  }

  lemma HighDigit(t: Triple)
    ensures (Unpack(t).odd as bv32) == Word(t) >> 12
  {
  }

  /** Unpacking is ByteDecode12 before the reduction: the two 12-bit digits of the number. */
  lemma UnpackIsByteDecode(t: Triple)
    ensures (Unpack(t).even as bv32) == Word(t) & 4095
    ensures (Unpack(t).odd as bv32) == Word(t) >> 12
  {
    LowDigit(t);
    HighDigit(t);
    hide *;
  }

  lemma BelowQ(x: bv32)
    requires x < 3329
    ensures ReducedWord(x) == x
  {
    assert (x - 3329) & 0x8000_0000 != 0;
  }

  lemma FromQ(x: bv32)
    requires 3329 <= x < 6658
    ensures ReducedWord(x) == x - Q
  {
    assert (x - 3329) & 0x8000_0000 == 0;
  }

  lemma ReducedIsModQ(c: Coefficient)
    requires c < 6658
    ensures c < 3329 ==> Reduced(c) == c as bv32
    ensures c >= 3329 ==> Reduced(c) == (c as bv32) - Q
  {
    hide Widened, ReducedWord;
    var w := c as bv32;
    SmallWidened(c);
    if w < 3329 {
      BelowQ(w);
    } else {
      FromQ(w);
    }
  }

  lemma SmallWidened(c: Coefficient)
    requires c < 6658
    ensures Widened(c) == c as bv32
    ensures c < 3329 <==> (c as bv32) < 3329
    ensures (c as bv32) < 6658
  {
  }

  lemma UnpackSplit(o: bv32, i: bv32)
    requires o < 4096 && i < 4096
    ensures Unpack(Split(o, i)) == Pair(o as bv16, i as bv16)
  {
  }

  lemma SplitUnpack(t: Triple)
    ensures Split(Unpack(t).even as bv32, Unpack(t).odd as bv32) == t
  {
  }

  function Residue(c: Coefficient): Coefficient {
    if c < 3329 then c else c - 3329
  }

  lemma ReducedIsResidue(c: Coefficient)
    requires c < 6658
    ensures Reduced(c) < 4096 && Reduced(c) as bv16 == Residue(c)
  {
    hide *;
    ReducedIsModQ(c);
    if c < 3329 {
      SmallResidue(c);
    } else {
      LargeResidue(c);
    }
  }

  lemma SmallResidue(c: Coefficient)
    requires c < 3329
    ensures (c as bv32) < 4096 && (c as bv32) as bv16 == Residue(c)
  {
  }

  lemma LargeResidue(c: Coefficient)
    requires 3329 <= c < 6658
    ensures (c as bv32) - Q < 4096 && ((c as bv32) - Q) as bv16 == Residue(c)
  {
  }

  /** What packing writes for coefficients below 2Q is their residues. */
  lemma UnpackPack(p: Pair)
    requires p.even < 6658 && p.odd < 6658
    ensures Unpack(Pack(p)) == Pair(Residue(p.even), Residue(p.odd))
  {
    hide Reduced, Split, Unpack, Residue;
    ReducedIsResidue(p.even);
    ReducedIsResidue(p.odd);
    UnpackSplit(Reduced(p.even), Reduced(p.odd));
  }

  lemma ResidueExactly(c: Coefficient)
    ensures Residue(c) == c <==> IsReduced(c)
  {
  }

  lemma Digits(t: Triple)
    ensures Unpack(t).even < 4096 && Unpack(t).odd < 4096
  {
  }

  lemma SmallReduced(c: Coefficient)
    requires IsReduced(c)
    ensures Reduced(c) == c as bv32
  {
    ReducedIsModQ(c);
    hide Reduced;
  }

  lemma PackUnpackExactly(t: Triple)
    ensures Pack(Unpack(t)) == t <==> IsReduced(Unpack(t).even) && IsReduced(Unpack(t).odd)
  {
    hide Reduced, Split, Unpack, Residue, IsReduced;
    var p := Unpack(t);
    Digits(t);
    UnpackPack(p);
    ResidueExactly(p.even);
    ResidueExactly(p.odd);
    if IsReduced(p.even) && IsReduced(p.odd) {
      SmallReduced(p.even);
      SmallReduced(p.odd);
      SplitUnpack(t);
    }
  }

  // --- Whole polynomials -------------------------------------------------------------------

  function Bytes(t: Triple): (bytes: seq<bv8>) {
    [t.b0, t.b1, t.b2]
  }

  /** The packed pairs of a polynomial with an even number of coefficients. */
  function Packed(poly: seq<Coefficient>): (bytes: seq<bv8>)
    requires |poly| % 2 == 0
    ensures 2 * |bytes| == 3 * |poly| && |bytes| % 3 == 0
  {
    if poly == [] then [] else
      var n := |poly| - 2;
      Packed(poly[..n]) + Bytes(Pack(Pair(poly[n], poly[n + 1])))
  }

  function Unpacked(bytes: seq<bv8>): (poly: seq<Coefficient>)
    requires |bytes| % 3 == 0
    ensures 3 * |poly| == 2 * |bytes| && |poly| % 2 == 0
  {
    if bytes == [] then [] else
      var n := |bytes| - 3;
      var p := Unpack(Triple(bytes[n], bytes[n + 1], bytes[n + 2]));
      Unpacked(bytes[..n]) + [p.even, p.odd]
  }

  predicate AllReduced(poly: seq<Coefficient>) {
    forall k :: 0 <= k < |poly| ==> IsReduced(poly[k])
  }

  /** Packing reduced coefficients and unpacking them is the identity. */
  lemma {:induction false} PolyRoundTrip(poly: seq<Coefficient>)
    requires |poly| % 2 == 0 && AllReduced(poly)
    ensures Unpacked(Packed(poly)) == poly
  {
    hide Pack, Unpack, IsReduced, AllReduced;
    if poly != [] {
      var n := |poly| - 2;
      var p := Pair(poly[n], poly[n + 1]);
      AllButTwo(poly);
      PolyRoundTrip(poly[..n]);
      PairRoundTrip(p);
      UnpackedAppend(Packed(poly[..n]), Pack(p));
    }
  }

  lemma AllButTwo(poly: seq<Coefficient>)
    requires |poly| >= 2 && AllReduced(poly)
    ensures AllReduced(poly[..|poly| - 2]) && IsReduced(poly[|poly| - 2]) && IsReduced(poly[|poly| - 1])
  {
  }

  lemma PairRoundTrip(p: Pair)
    requires IsReduced(p.even) && IsReduced(p.odd)
    ensures Unpack(Pack(p)) == p
  {
    UnpackPack(p);
    hide Pack, Unpack, Residue;
    ResidueExactly(p.even);
    ResidueExactly(p.odd);
  }

  lemma UnpackedAppend(bytes: seq<bv8>, t: Triple)
    requires |bytes| % 3 == 0
    ensures Unpacked(bytes + Bytes(t)) == Unpacked(bytes) + [Unpack(t).even, Unpack(t).odd]
  {
    hide Unpack;
    var all := bytes + Bytes(t);
    assert all[..|all| - 3] == bytes;
  }

  /** Unpacking and packing gives the same bytes exactly if every coefficient is reduced. */
  lemma {:induction false} RepackExactly(bytes: seq<bv8>)
    requires |bytes| % 3 == 0
    ensures Packed(Unpacked(bytes)) == bytes <==> AllReduced(Unpacked(bytes))
  {
    hide Pack, Unpack, IsReduced, AllReduced;
    if bytes == [] {
      EmptyIsReduced();
    } else {
      var n := |bytes| - 3;
      var t := Triple(bytes[n], bytes[n + 1], bytes[n + 2]);
      var p, front := Unpack(t), Unpacked(bytes[..n]);
      RepackExactly(bytes[..n]);
      PackUnpackExactly(t);
      hide Bytes;
      LastPair(front, p);
      SameTail(Packed(front), bytes[..n], Pack(p), t);
      LastTriple(bytes);
    }
  }

  lemma EmptyIsReduced()
    ensures AllReduced([])
  {
  }

  lemma LastTriple(bytes: seq<bv8>)
    requires |bytes| >= 3
    ensures
      var n := |bytes| - 3;
      bytes == bytes[..n] + Bytes(Triple(bytes[n], bytes[n + 1], bytes[n + 2]))
  {
  }

  lemma LastPair(front: seq<Coefficient>, p: Pair)
    ensures AllReduced(front + [p.even, p.odd]) <==> AllReduced(front) && IsReduced(p.even) && IsReduced(p.odd)
  {
    hide IsReduced;
    var all := front + [p.even, p.odd];
    if AllReduced(all) {
      assert forall k :: 0 <= k < |front| ==> front[k] == all[k];
      assert all[|front|] == p.even && all[|front| + 1] == p.odd;
    }
  }

  lemma SameTail(a: seq<bv8>, b: seq<bv8>, s: Triple, t: Triple)
    requires |a| == |b|
    ensures a + Bytes(s) == b + Bytes(t) <==> a == b && s == t
  {
    var x, y := a + Bytes(s), b + Bytes(t);
    if x == y {
      assert a == x[..|a|] == y[..|b|] == b;
      assert s == Triple(x[|a|], x[|a| + 1], x[|a| + 2]) == Triple(y[|b|], y[|b| + 1], y[|b| + 2]) == t;
    }
  }

  // --- The code ------------------------------------------------------------------------------

  method PutTriple(out: array<bv8>, j: nat, t: Triple)
    requires j + 3 <= out.Length
    modifies out
    ensures out[..] == old(out[..j]) + Bytes(t) + old(out[j + 3..])
  {
    out[j], out[j + 1], out[j + 2] := t.b0, t.b1, t.b2;
  }

  method PutPair(poly: array<Coefficient>, j: nat, p: Pair)
    requires j + 2 <= poly.Length
    modifies poly
    ensures poly[..] == old(poly[..j]) + [p.even, p.odd] + old(poly[j + 2..])
  {
    poly[j], poly[j + 1] := p.even, p.odd;
  }

  lemma Splice<T>(pre: seq<T>, mid: seq<T>, piece: seq<T>, rest: seq<T>, j: nat)
    requires |mid| == j && j + |piece| <= |rest|
    ensures
      var all := pre + mid + rest[j..];
      var i := |pre| + j;
      all[..i] + piece + all[i + |piece|..] == pre + (mid + piece) + rest[j + |piece|..]
  {
  }

  ghost predicate PackedUpTo(out: seq<bv8>, pre: seq<bv8>, poly: seq<Coefficient>, rest: seq<bv8>, n: nat)
    requires 2 * n <= |poly| && 3 * n <= |rest|
  {
    out == pre + Packed(poly[..2 * n]) + rest[3 * n..]
  }

  lemma PackedUpToNext(out: seq<bv8>, pre: seq<bv8>, poly: seq<Coefficient>, rest: seq<bv8>, n: nat)
    requires 2 * n + 2 <= |poly| && 3 * n + 3 <= |rest| && PackedUpTo(out, pre, poly, rest, n)
    ensures
      var j := |pre| + 3 * n;
      && |out| == |pre| + |rest|
      && PackedUpTo(out[..j] + Bytes(Pack(Pair(poly[2 * n], poly[2 * n + 1]))) + out[j + 3..], pre, poly, rest, n + 1)
  {
    hide Pack, Packed;
    Splice(pre, Packed(poly[..2 * n]), Bytes(Pack(Pair(poly[2 * n], poly[2 * n + 1]))), rest, 3 * n);
    PackedNext(poly, 2 * n);
  }

  lemma PackedAtEnds(out: seq<bv8>, pre: seq<bv8>, poly: seq<Coefficient>, rest: seq<bv8>, n: nat)
    requires |poly| == 2 * n && 3 * n <= |rest|
    ensures PackedUpTo(pre + rest, pre, poly, rest, 0)
    ensures PackedUpTo(out, pre, poly, rest, n) ==> out == pre + Packed(poly) + rest[3 * n..]
  {
    assert poly[..2 * n] == poly && rest[0..] == rest && pre + [] == pre;
  }

  method PolyToBytes(out: array<bv8>, at: nat, poly: array<Coefficient>)
    requires poly.Length == 256 && at + 384 <= out.Length
    modifies out
    ensures out[..] == old(out[..at]) + Packed(poly[..]) + old(out[at..])[384..]
  {
    hide Pack, Bytes, Packed, PackedUpTo;
    ghost var pre, rest, coefficients := out[..at], out[at..], poly[..];
    assert out[..] == pre + rest;
    PackedAtEnds(pre + rest, pre, coefficients, rest, 128);
    for s := 0 to 128
      invariant PackedUpTo(out[..], pre, coefficients, rest, s)
    {
      PackedUpToNext(out[..], pre, coefficients, rest, s);
      PutTriple(out, at + 3 * s, Pack(Pair(poly[2 * s], poly[2 * s + 1])));
    }
    PackedAtEnds(out[..], pre, coefficients, rest, 128);
  }

  lemma PackedNext(poly: seq<Coefficient>, n: nat)
    requires n % 2 == 0 && n + 2 <= |poly|
    ensures Packed(poly[..n + 2]) == Packed(poly[..n]) + Bytes(Pack(Pair(poly[n], poly[n + 1])))
  {
    hide Pack;
    assert poly[..n + 2][..n] == poly[..n];
  }

  lemma UnpackedNext(bytes: seq<bv8>, n: nat)
    requires n % 3 == 0 && n + 3 <= |bytes|
    ensures
      var p := Unpack(Triple(bytes[n], bytes[n + 1], bytes[n + 2]));
      Unpacked(bytes[..n + 3]) == Unpacked(bytes[..n]) + [p.even, p.odd]
  {
    hide Unpack;
    assert bytes[..n + 3][..n] == bytes[..n];
  }

  ghost predicate UnpackedUpTo(poly: seq<Coefficient>, bytes: seq<bv8>, rest: seq<Coefficient>, n: nat)
    requires 3 * n <= |bytes| && 2 * n <= |rest|
  {
    poly == [] + Unpacked(bytes[..3 * n]) + rest[2 * n..]
  }

  lemma UnpackedUpToNext(poly: seq<Coefficient>, bytes: seq<bv8>, rest: seq<Coefficient>, n: nat)
    requires 3 * n + 3 <= |bytes| && 2 * n + 2 <= |rest| && UnpackedUpTo(poly, bytes, rest, n)
    ensures
      var p := Unpack(Triple(bytes[3 * n], bytes[3 * n + 1], bytes[3 * n + 2]));
      |poly| == |rest| && UnpackedUpTo(poly[..2 * n] + [p.even, p.odd] + poly[2 * n + 2..], bytes, rest, n + 1)
  {
    hide Unpack, Unpacked;
    var p := Unpack(Triple(bytes[3 * n], bytes[3 * n + 1], bytes[3 * n + 2]));
    Splice([], Unpacked(bytes[..3 * n]), [p.even, p.odd], rest, 2 * n);
    UnpackedNext(bytes, 3 * n);
  }

  lemma UnpackedAtEnds(poly: seq<Coefficient>, bytes: seq<bv8>, rest: seq<Coefficient>, n: nat)
    requires |bytes| == 3 * n && |rest| == 2 * n
    ensures UnpackedUpTo(rest, bytes, rest, 0)
    ensures UnpackedUpTo(poly, bytes, rest, n) ==> poly == Unpacked(bytes)
  {
    assert bytes[..3 * n] == bytes && rest[0..] == rest;
  }

  method PolyFromBytes(poly: array<Coefficient>, key: seq<bv8>, at: nat)
    requires poly.Length == 256 && at + 384 <= |key|
    modifies poly
    ensures poly[..] == Unpacked(key[at..at + 384])
  {
    hide Unpack, Unpacked, UnpackedUpTo;
    ghost var bytes, rest := key[at..at + 384], poly[..];
    UnpackedAtEnds(rest, bytes, rest, 128);
    for o := 0 to 128
      invariant UnpackedUpTo(poly[..], bytes, rest, o)
    {
      UnpackedUpToNext(poly[..], bytes, rest, o);
      PutPair(poly, 2 * o, Unpack(Triple(key[at + 3 * o], key[at + 3 * o + 1], key[at + 3 * o + 2])));
    }
    UnpackedAtEnds(poly[..], bytes, rest, 128);
  }

  method SameBytes(a: seq<bv8>, b: seq<bv8>) returns (same: bool)
    ensures same <==> a == b
  {
    if |a| != |b| {
      return false;
    }
    for r := 0 to |a|
      invariant a[..r] == b[..r]
    {
      if a[r] != b[r] {
        return false;
      }
    }
    return true;
  }

  /** A key of k packed polynomials and a 32-byte seed is accepted exactly if it has that
    length and every coefficient of the polynomials is below Q. */
  method AcceptsKey(key: seq<bv8>, k: nat) returns (ok: bool)
    ensures ok <==> |key| == 384 * k + 32 && AllReduced(Unpacked(Polys(key, k)))
  {
    if |key| != 384 * k + 32 {
      return false;
    }
    hide Pack, Unpack, AllReduced, Packed, Unpacked, RepackedUpTo;
    var poly, check := new Coefficient[256], new bv8[384 * k];
    for h := 0 to k
      invariant RepackedUpTo(check[..], key, h)
    {
      ghost var before := check[..];
      PolyFromBytes(poly, key, 384 * h);
      PolyToBytes(check, 384 * h, poly);
      NextBlock(before, check[..], key, h);
    }
    ok := SameBytes(Polys(key, k), check[..]);
    RepackExactly(Polys(key, k));
  }

  /** The first h packed polynomials of the key. */
  function Polys(key: seq<bv8>, h: nat): (bytes: seq<bv8>)
    requires 384 * h <= |key|
    ensures |bytes| == 384 * h && |bytes| % 3 == 0
  {
    assert 384 * h == 3 * (128 * h);
    key[..384 * h]
  }

  ghost predicate RepackedUpTo(check: seq<bv8>, key: seq<bv8>, h: nat) {
    && 384 * h <= |check| && 384 * h <= |key|
    && check[..384 * h] == Packed(Unpacked(Polys(key, h)))
  }

  lemma NextPolys(key: seq<bv8>, h: nat)
    requires 384 * h + 384 <= |key|
    ensures Polys(key, h + 1) == Polys(key, h) + key[384 * h..384 * h + 384]
  {
  }

  lemma NextBlock(before: seq<bv8>, check: seq<bv8>, key: seq<bv8>, h: nat)
    requires RepackedUpTo(before, key, h) && 384 * h + 384 <= |before| && 384 * h + 384 <= |key|
    requires check ==
      before[..384 * h] + Packed(Unpacked(key[384 * h..384 * h + 384])) + before[384 * h..][384..]
    ensures RepackedUpTo(check, key, h + 1)
  {
    var a, b := Polys(key, h), key[384 * h..384 * h + 384];
    PackedBlocks(a, b);
    hide Packed, Unpacked;
    NextPolys(key, h);
    hide Polys;
    assert |Packed(Unpacked(b))| == 384;
  }

  lemma {:induction false} UnpackedConcat(a: seq<bv8>, b: seq<bv8>)
    requires |a| % 3 == 0 && |b| % 3 == 0 && |a + b| % 3 == 0
    ensures Unpacked(a + b) == Unpacked(a) + Unpacked(b)
  {
    if b == [] {
      assert a + b == a;
    } else {
      var n := |b| - 3;
      var front, t := b[..n], Triple(b[n], b[n + 1], b[n + 2]);
      LastTriple(b);
      UnpackedConcat(a, front);
      UnpackedAppend(front, t);
      UnpackedAppend(a + front, t);
      Regroup(a, front, Bytes(t));
      hide *;
      Regroup(Unpacked(a), Unpacked(front), [Unpack(t).even, Unpack(t).odd]);
    }
  }

  lemma {:induction false} PackedConcat(a: seq<Coefficient>, b: seq<Coefficient>)
    requires |a| % 2 == 0 && |b| % 2 == 0 && |a + b| % 2 == 0
    ensures Packed(a + b) == Packed(a) + Packed(b)
  {
    hide Pack;
    if b == [] {
      assert a + b == a;
    } else {
      var n := |b| - 2;
      PackedConcat(a, b[..n]);
      assert (a + b)[..|a + b| - 2] == a + b[..n];
      Regroup(Packed(a), Packed(b[..n]), Bytes(Pack(Pair(b[n], b[n + 1]))));
    }
  }

  lemma PackedBlocks(a: seq<bv8>, b: seq<bv8>)
    requires |a| % 3 == 0 && |b| % 3 == 0 && |a + b| % 3 == 0
    ensures Packed(Unpacked(a + b)) == Packed(Unpacked(a)) + Packed(Unpacked(b))
  {
    hide Pack, Unpack, Packed, Unpacked;
    UnpackedConcat(a, b);
    PackedConcat(Unpacked(a), Unpacked(b));
  }
}
