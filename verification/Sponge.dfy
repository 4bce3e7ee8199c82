/**
  The Keccak sponge (class it of the crypto bundle) refines the sponge construction of
  section 4 of FIPS 202. The permutation is a parameter.
  */
module Sponge {
  import opened Prelude

  type State = s: seq<bv8> | |s| == 200 witness seq(200, _ => 0)

  datatype Params = Params(rate: nat, suffix: bv8, permute: State -> State) {
    predicate Valid() { 0 < rate < 200 }
  }

  datatype Sponge = Sponge(state: State, pos: nat, posOut: nat, finished: bool)

  const ZERO_STATE: State := Zeros(200)

  const START := Sponge(ZERO_STATE, 0, 0, false)

  // --- One byte at a time ------------------------------------------------------------

  function Permuted(p: Params, s: Sponge): Sponge {
    Sponge(p.permute(s.state), 0, 0, s.finished)
  }

  function Flip(state: State, i: nat, b: bv8): State
    requires i < 200
  {
    state[i := state[i] ^ b]
  }

  /** A full block is permuted. */
  function Settled(p: Params, s: Sponge): Sponge {
    if s.pos == p.rate then Permuted(p, s) else s
  }

  function AbsorbByte(p: Params, s: Sponge, b: bv8): (t: Sponge)
    requires p.Valid() && s.pos < p.rate
    ensures t.pos < p.rate
  {
    Settled(p, s.(state := Flip(s.state, s.pos, b), pos := s.pos + 1))
  }

  function Absorb(p: Params, s: Sponge, msg: seq<bv8>): (t: Sponge)
    requires p.Valid() && s.pos < p.rate
    ensures t.pos < p.rate && t.finished == s.finished
  {
    if msg == [] then s else AbsorbByte(p, Absorb(p, s, msg[..|msg| - 1]), msg[|msg| - 1])
  }

  function Finished(p: Params, s: Sponge): (t: Sponge)
    requires p.Valid() && s.pos < p.rate
  {
    if s.finished then s else
      var a := s.(state := Flip(s.state, s.pos, p.suffix), finished := true);
      var b := if p.suffix & 128 != 0 && s.pos == p.rate - 1 then Permuted(p, a) else a;
      Permuted(p, b.(state := Flip(b.state, p.rate - 1, 128)))
  }

  datatype Squeezed = Squeezed(bytes: seq<bv8>, sponge: Sponge)

  function SqueezeByte(p: Params, s: Sponge): (t: Squeezed)
    requires p.Valid()
    ensures t.sponge.posOut <= p.rate
  {
    var a := if s.posOut >= p.rate then Permuted(p, s) else s;
    Squeezed([a.state[a.posOut]], a.(posOut := a.posOut + 1))
  }

  function Squeeze(p: Params, s: Sponge, n: nat): (t: Squeezed)
    requires p.Valid()
    ensures |t.bytes| == n
  {
    if n == 0 then Squeezed([], s) else
      var front := Squeeze(p, s, n - 1);
      var last := SqueezeByte(p, front.sponge);
      Squeezed(front.bytes + last.bytes, last.sponge)
  }

  // --- Splitting ---------------------------------------------------------------------

  /** Absorbing does not depend on how the message is cut. */
  lemma {:induction false} AbsorbSplit(p: Params, s: Sponge, a: seq<bv8>, b: seq<bv8>)
    requires p.Valid() && s.pos < p.rate
    ensures Absorb(p, s, a + b) == Absorb(p, Absorb(p, s, a), b)
  {
    if b == [] {
      assert a + b == a;
    } else {
      AbsorbSplit(p, s, a, b[..|b| - 1]);
      assert (a + b)[..|a + b| - 1] == a + b[..|b| - 1];
    }
  }

  /** Squeezing in two pieces gives the stream of one squeeze. */
  lemma {:induction false} SqueezeSplit(p: Params, s: Sponge, m: nat, n: nat)
    requires p.Valid()
    ensures Squeeze(p, s, m + n).bytes == Squeeze(p, s, m).bytes + Squeeze(p, Squeeze(p, s, m).sponge, n).bytes
    ensures Squeeze(p, s, m + n).sponge == Squeeze(p, Squeeze(p, s, m).sponge, n).sponge
  {
    hide *;
    var first := Squeeze(p, s, m);
    if n == 0 {
      SqueezeNothing(p, first.sponge);
      assert first.bytes + [] == first.bytes;
    } else {
      SqueezeSplit(p, s, m, n - 1);
      SqueezeNext(p, s, m + (n - 1));
      SqueezeNext(p, first.sponge, n - 1);
      var second := Squeeze(p, first.sponge, n - 1);
      Regroup(first.bytes, second.bytes, SqueezeByte(p, second.sponge).bytes);
    }
  }

  lemma SqueezeNothing(p: Params, s: Sponge)
    requires p.Valid()
    ensures Squeeze(p, s, 0) == Squeezed([], s)
  {
  }

  lemma SqueezeNext(p: Params, s: Sponge, n: nat)
    requires p.Valid()
    ensures Squeeze(p, s, n + 1).bytes == Squeeze(p, s, n).bytes + SqueezeByte(p, Squeeze(p, s, n).sponge).bytes
    ensures Squeeze(p, s, n + 1).sponge == SqueezeByte(p, Squeeze(p, s, n).sponge).sponge
  {
  }

  lemma OneMore<T>(a: seq<T>, i: nat, n: nat)
    requires i + n < |a|
    ensures a[i..i + n] + [a[i + n]] == a[i..i + n + 1]
  {
  }

  /** Within a block, squeezing reads on. */
  lemma {:induction false} SqueezeRun(p: Params, s: Sponge, n: nat)
    requires p.Valid() && s.posOut + n <= p.rate
    ensures Squeeze(p, s, n) == Squeezed(s.state[s.posOut..s.posOut + n], s.(posOut := s.posOut + n))
  {
    if n > 0 {
      SqueezeRun(p, s, n - 1);
      var last := SqueezeByte(p, Squeeze(p, s, n - 1).sponge);
      assert Squeeze(p, s, n) == Squeezed(Squeeze(p, s, n - 1).bytes + last.bytes, last.sponge);
      hide Squeeze;
      OneMore(s.state, s.posOut, n - 1);
    }
  }

  // --- The construction of FIPS 202, block by block --------------------------------------

  /** The block, filled up with zeros, flipped into the state. */
  function Mixed(state: State, block: seq<bv8>): State
    requires |block| <= 200
  {
    seq(200, i requires 0 <= i < 200 => if i < |block| then state[i] ^ block[i] else state[i])
  }

  function Blocks(p: Params, state: State, padded: seq<bv8>): State
    requires p.Valid()
    decreases |padded|
  {
    if |padded| < p.rate then state
    else Blocks(p, p.permute(Mixed(state, padded[..p.rate])), padded[p.rate..])
  }

  /** The domain bits and pad10*1 in bytes, for a message of n bytes. */
  function Padding(p: Params, n: nat): seq<bv8>
    requires p.Valid()
  {
    PadTo(p, p.rate - n % p.rate)
  }

  /** The padding when room bytes of the block are free. */
  function PadTo(p: Params, room: nat): seq<bv8>
    requires p.Valid() && 1 <= room <= p.rate
  {
    if room > 1 then [p.suffix] + Zeros(room - 2) + [128]
    else if p.suffix & 128 == 0 then [p.suffix | 128]
    else [p.suffix] + Zeros(p.rate - 1) + [128]
  }

  function Output(p: Params, state: State, d: nat): seq<bv8>
    requires p.Valid()
    decreases d
  {
    if d <= p.rate then state[..d] else state[..p.rate] + Output(p, p.permute(state), d - p.rate)
  }

  /** The d bytes the standard gives for the message. */
  function Reference(p: Params, msg: seq<bv8>, d: nat): seq<bv8>
    requires p.Valid()
  {
    Output(p, Blocks(p, ZERO_STATE, msg + Padding(p, |msg|)), d)
  }

  lemma MixLast(state: State, part: seq<bv8>)
    requires 0 < |part| <= 200
    ensures Flip(Mixed(state, part[..|part| - 1]), |part| - 1, part[|part| - 1]) == Mixed(state, part)
  {
  }

  lemma {:induction false} AbsorbPartOfBlock(p: Params, s: Sponge, part: seq<bv8>)
    requires p.Valid() && s.pos == 0 && |part| < p.rate
    ensures Absorb(p, s, part) == s.(state := Mixed(s.state, part), pos := |part|)
  {
    if part == [] {
      assert Mixed(s.state, part) == s.state;
    } else {
      hide Flip, Mixed;
      AbsorbPartOfBlock(p, s, part[..|part| - 1]);
      MixLast(s.state, part);
    }
  }

  lemma AbsorbBlock(p: Params, s: Sponge, block: seq<bv8>)
    requires p.Valid() && s.pos == 0 && |block| == p.rate
    ensures Absorb(p, s, block) == Sponge(p.permute(Mixed(s.state, block)), 0, 0, s.finished)
  {
    hide Flip, Mixed;
    AbsorbPartOfBlock(p, s, block[..|block| - 1]);
    MixLast(s.state, block);
  }

  lemma MixPart(state: State, part: seq<bv8>, b: bv8)
    requires |part| < 200
    ensures Mixed(state, part + [b]) == Flip(Mixed(state, part), |part|, b)
  {
  }

  lemma MixEnd(state: State, n: nat)
    requires n < 200
    ensures Mixed(state, Zeros(n) + [128]) == Flip(state, n, 128)
  {
  }

  lemma MixLater(state: State, part: seq<bv8>, n: nat)
    requires |part| + n < 200
    ensures Mixed(state, part + Zeros(n) + [128]) == Flip(Mixed(state, part), |part| + n, 128)
  {
  }

  lemma FlipTwice(state: State, i: nat, suffix: bv8)
    requires i < 200 && suffix & 128 == 0
    ensures Flip(state, i, suffix | 128) == Flip(Flip(state, i, suffix), i, 128)
  {
  }

  lemma FinishedState(p: Params, s: Sponge)
    requires p.Valid() && s.pos < p.rate && !s.finished
    ensures
      var state := Flip(s.state, s.pos, p.suffix);
      var spills := p.suffix & 128 != 0 && s.pos == p.rate - 1;
      Finished(p, s).state == p.permute(Flip(if spills then p.permute(state) else state, p.rate - 1, 128))
  {
    hide Flip;
  }

  lemma PadWithRoom(p: Params, state: State, part: seq<bv8>)
    requires p.Valid() && |part| < p.rate - 1
    ensures Blocks(p, state, part + Padding(p, |part|)) ==
      p.permute(Flip(Flip(Mixed(state, part), |part|, p.suffix), p.rate - 1, 128))
  {
    hide Mixed, Flip, Blocks;
    var n, zeros := |part|, p.rate - |part| - 2;
    assert n % p.rate == n;
    assert part + Padding(p, n) == part + [p.suffix] + Zeros(zeros) + [128];
    hide *;
    MixPart(state, part, p.suffix);
    MixLater(state, part + [p.suffix], zeros);
    OneBlock(p, state, part + [p.suffix] + Zeros(zeros) + [128]);
  }

  lemma PadInOneByte(p: Params, state: State, part: seq<bv8>)
    requires p.Valid() && |part| == p.rate - 1 && p.suffix & 128 == 0
    ensures Blocks(p, state, part + Padding(p, |part|)) ==
      p.permute(Flip(Flip(Mixed(state, part), |part|, p.suffix), p.rate - 1, 128))
  {
    hide Mixed, Flip, Blocks;
    assert |part| % p.rate == |part|;
    assert Padding(p, |part|) == [p.suffix | 128];
    hide *;
    FlipTwice(Mixed(state, part), |part|, p.suffix);
    MixPart(state, part, p.suffix | 128);
    OneBlock(p, state, part + [p.suffix | 128]);
  }

  lemma PadSpills(p: Params, state: State, part: seq<bv8>)
    requires p.Valid() && |part| == p.rate - 1 && p.suffix & 128 != 0
    ensures Blocks(p, state, part + Padding(p, |part|)) ==
      p.permute(Flip(p.permute(Flip(Mixed(state, part), |part|, p.suffix)), p.rate - 1, 128))
  {
    hide Mixed, Flip, Blocks;
    var last := Zeros(p.rate - 1) + [128];
    assert |part| % p.rate == |part|;
    assert part + Padding(p, |part|) == (part + [p.suffix]) + last;
    hide *;
    MixPart(state, part, p.suffix);
    MixEnd(p.permute(Mixed(state, part + [p.suffix])), p.rate - 1);
    TwoBlocks(p, state, part + [p.suffix], last);
  }

  /** The end of the message: less than a block, and the padding. */
  lemma FinishLastBlock(p: Params, s: Sponge, part: seq<bv8>)
    requires p.Valid() && s.pos == 0 && !s.finished && |part| < p.rate
    ensures Finished(p, Absorb(p, s, part)).state == Blocks(p, s.state, part + Padding(p, |part|))
  {
    hide Absorb, Finished, Mixed, Flip, Blocks, Padding;
    AbsorbPartOfBlock(p, s, part);
    FinishedState(p, Absorb(p, s, part));
    if |part| < p.rate - 1 {
      PadWithRoom(p, s.state, part);
    } else if p.suffix & 128 == 0 {
      PadInOneByte(p, s.state, part);
    } else {
      PadSpills(p, s.state, part);
    }
  }

  lemma TwoBlocks(p: Params, state: State, a: seq<bv8>, b: seq<bv8>)
    requires p.Valid() && |a| == |b| == p.rate
    ensures Blocks(p, state, a + b) == p.permute(Mixed(p.permute(Mixed(state, a)), b))
  {
    hide Mixed;
    assert (a + b)[..p.rate] == a && (a + b)[p.rate..] == b;
    OneBlock(p, p.permute(Mixed(state, a)), b);
  }

  lemma OneBlock(p: Params, state: State, block: seq<bv8>)
    requires p.Valid() && |block| == p.rate
    ensures Blocks(p, state, block) == p.permute(Mixed(state, block))
  {
    hide Mixed;
    assert block[..p.rate] == block;
  }

  lemma {:induction false} AbsorbIsBlocks(p: Params, s: Sponge, msg: seq<bv8>)
    requires p.Valid() && s.pos == 0 && !s.finished
    ensures Finished(p, Absorb(p, s, msg)).state == Blocks(p, s.state, msg + Padding(p, |msg|))
    decreases |msg|
  {
    if |msg| < p.rate {
      FinishLastBlock(p, s, msg);
    } else {
      hide Finished, Mixed, Padding;
      var block, rest := msg[..p.rate], msg[p.rate..];
      assert msg == block + rest;
      AbsorbSplit(p, s, block, rest);
      AbsorbBlock(p, s, block);
      AbsorbIsBlocks(p, Absorb(p, s, block), rest);
      SamePadding(p, |rest|);
      hide Absorb;
      Regroup(block, rest, Padding(p, |rest|));
    }
  }

  lemma Remainder(v: int, q: int, k: int, x: nat)
    requires 0 <= k < x && v == q * x + k
    ensures v % x == k
  {
    var d := q - v / x;
    assert d * x == v % x - k;
  }

  lemma SamePadding(p: Params, n: nat)
    requires p.Valid()
    ensures Padding(p, n + p.rate) == Padding(p, n)
  {
    Remainder(n + p.rate, n / p.rate + 1, n % p.rate, p.rate);
  }

  lemma {:induction false} SqueezeIsOutput(p: Params, s: Sponge, d: nat)
    requires p.Valid() && s.posOut == 0
    ensures Squeeze(p, s, d).bytes == Output(p, s.state, d)
    decreases d
  {
    if d <= p.rate {
      SqueezeRun(p, s, d);
    } else {
      SqueezeSplit(p, s, p.rate, d - p.rate);
      SqueezeRun(p, s, p.rate);
      var full := s.(posOut := p.rate);
      PermuteFirst(p, full, d - p.rate);
      SqueezeIsOutput(p, Permuted(p, full), d - p.rate);
    }
  }

  /** Out of bytes, a squeeze starts with a permutation. */
  lemma {:induction false} PermuteFirst(p: Params, s: Sponge, n: nat)
    requires p.Valid() && s.posOut >= p.rate && n > 0
    ensures Squeeze(p, s, n) == Squeeze(p, Permuted(p, s), n)
  {
    if n == 1 {
      assert Squeeze(p, s, 0).sponge == s && Squeeze(p, Permuted(p, s), 0).sponge == Permuted(p, s);
    } else {
      PermuteFirst(p, s, n - 1);
    }
  }

  /** A fresh sponge gives the bytes of the standard, however the message is cut and however
    the output is taken. */
  lemma SpongeIsReference(p: Params, a: seq<bv8>, b: seq<bv8>, m: nat, n: nat)
    requires p.Valid()
    ensures
      var s := Finished(p, Absorb(p, Absorb(p, START, a), b));
      var first := Squeeze(p, s, m);
      first.bytes + Squeeze(p, first.sponge, n).bytes == Reference(p, a + b, m + n)
  {
    AbsorbSplit(p, START, a, b);
    AbsorbIsBlocks(p, START, a + b);
    var s := Finished(p, Absorb(p, START, a + b));
    SqueezeIsOutput(p, s, m + n);
    SqueezeSplit(p, s, m, n);
  }

  // --- The padding in bits -----------------------------------------------------------------

  function Bits(b: bv8): (bits: seq<bool>)
    ensures |bits| == 8
  {
    [b & 1 != 0, b & 2 != 0, b & 4 != 0, b & 8 != 0, b & 16 != 0, b & 32 != 0, b & 64 != 0, b & 128 != 0]
  }

  function BitsOf(bytes: seq<bv8>): (bits: seq<bool>)
    ensures |bits| == 8 * |bytes|
  {
    if bytes == [] then [] else Bits(bytes[0]) + BitsOf(bytes[1..])
  }

  /** The number of domain bits: those below the highest one of the suffix. */
  function DomainBits(suffix: bv8): (h: nat)
    requires suffix != 0
    ensures h < 8
  {
    if suffix >= 128 then 7 else if suffix >= 64 then 6 else if suffix >= 32 then 5 else if suffix >= 16 then 4
    else if suffix >= 8 then 3 else if suffix >= 4 then 2 else if suffix >= 2 then 1 else 0
  }

  /** Section 5.1 of FIPS 202: one, zeros, one, up to a multiple of x bits. */
  function Pad101(x: nat, m: nat): seq<bool>
    requires x > 0
  {
    [true] + Falses((-(m as int) - 2) % x) + [true]
  }

  function Falses(n: nat): seq<bool> {
    seq(n, _ => false)
  }

  lemma {:induction false} BitsOfZeros(n: nat)
    ensures BitsOf(Zeros(n)) == Falses(8 * n)
  {
    if n > 0 {
      BitsOfZeros(n - 1);
      assert Zeros(n)[1..] == Zeros(n - 1);
    }
  }

  lemma {:induction false} BitsOfConcat(a: seq<bv8>, b: seq<bv8>)
    ensures BitsOf(a + b) == BitsOf(a) + BitsOf(b)
  {
    if a == [] {
      assert a + b == b;
    } else {
      BitsOfConcat(a[1..], b);
      assert (a + b)[1..] == a[1..] + b;
      hide Bits;
      Regroup(Bits(a[0]), BitsOf(a[1..]), BitsOf(b));
    }
  }

  lemma SuffixBits(suffix: bv8)
    requires suffix != 0
    ensures
      var h := DomainBits(suffix);
      && Bits(suffix) == Bits(suffix)[..h] + [true] + Falses(7 - h)
      && (suffix & 128 == 0 <==> h < 7)
      && (h < 7 ==> Bits(suffix | 128) == Bits(suffix)[..h] + [true] + Falses(6 - h) + [true])
  {
  }

  lemma PadLength(r: nat, n: nat, h: nat)
    requires r > 0 && h < 8
    ensures
      var room := r - n % r;
      (-((8 * n + h) as int) - 2) % (8 * r) ==
        if 8 * room - h - 2 >= 0 then 8 * room - h - 2 else 8 * room - h - 2 + 8 * r
  {
    var q, room := n / r, r - n % r;
    var j := 8 * room - h - 2;
    if j >= 0 {
      Remainder(-((8 * n + h) as int) - 2, -(q + 1), j, 8 * r);
    } else {
      Remainder(-((8 * n + h) as int) - 2, -(q + 2), j + 8 * r, 8 * r);
    }
  }

  lemma BitsOfEnd(n: nat)
    ensures BitsOf(Zeros(n) + [128]) == Falses(8 * n + 7) + [true]
  {
    BitsOfConcat(Zeros(n), [128]);
    BitsOfZeros(n);
    OneByte(128);
    assert Bits(128) == Falses(7) + [true];
    assert Falses(8 * n) + Falses(7) == Falses(8 * n + 7);
  }

  lemma LongPadding(suffix: bv8, n: nat)
    requires suffix != 0
    ensures
      var h := DomainBits(suffix);
      BitsOf([suffix] + Zeros(n) + [128]) == Bits(suffix)[..h] + ([true] + Falses(8 * n + 14 - h) + [true])
  {
    var h := DomainBits(suffix);
    SuffixBits(suffix);
    OneByte(suffix);
    BitsOfEnd(n);
    BitsOfConcat([suffix], Zeros(n) + [128]);
    Regroup([suffix], Zeros(n), [128]);
    hide *;
  }

  lemma HighBit(suffix: bv8)
    requires suffix != 0
    ensures suffix & 128 == 0 <==> DomainBits(suffix) < 7
  {
  }

  lemma ShortPadding(suffix: bv8)
    requires suffix != 0 && suffix & 128 == 0
    ensures
      var h := DomainBits(suffix);
      h < 7 && BitsOf([suffix | 128]) == Bits(suffix)[..h] + ([true] + Falses(6 - h) + [true])
  {
    SuffixBits(suffix);
    OneByte(suffix | 128);
    hide *;
  }

  function EndBits(p: Params, room: nat, h: nat): seq<bool>
    requires h < 8 && 1 <= room <= p.rate
  {
    var j := 8 * room - h - 2;
    [true] + Falses(if j >= 0 then j else j + 8 * p.rate) + [true]
  }

  lemma PadToInBits(p: Params, room: nat)
    requires p.Valid() && p.suffix != 0 && 1 <= room <= p.rate
    ensures
      var h := DomainBits(p.suffix);
      BitsOf(PadTo(p, room)) == Bits(p.suffix)[..h] + EndBits(p, room, h)
  {
    HighBit(p.suffix);
    hide *;
    if room > 1 {
      RoomyPad(p, room);
    } else if DomainBits(p.suffix) == 7 {
      SpillingPad(p);
    } else {
      TightPad(p);
    }
  }

  lemma RoomyPad(p: Params, room: nat)
    requires p.Valid() && p.suffix != 0 && 1 < room <= p.rate
    ensures
      var h := DomainBits(p.suffix);
      BitsOf(PadTo(p, room)) == Bits(p.suffix)[..h] + EndBits(p, room, h)
  {
    assert PadTo(p, room) == [p.suffix] + Zeros(room - 2) + [128];
    hide *;
    LongPadding(p.suffix, room - 2);
  }

  lemma SpillingPad(p: Params)
    requires p.Valid() && p.suffix != 0 && DomainBits(p.suffix) == 7 && p.suffix & 128 != 0
    ensures BitsOf(PadTo(p, 1)) == Bits(p.suffix)[..7] + EndBits(p, 1, 7)
  {
    assert PadTo(p, 1) == [p.suffix] + Zeros(p.rate - 1) + [128];
    hide *;
    LongPadding(p.suffix, p.rate - 1);
  }

  lemma TightPad(p: Params)
    requires p.Valid() && p.suffix != 0 && p.suffix & 128 == 0
    ensures
      var h := DomainBits(p.suffix);
      BitsOf(PadTo(p, 1)) == Bits(p.suffix)[..h] + EndBits(p, 1, h)
  {
    assert PadTo(p, 1) == [p.suffix | 128];
    hide *;
    ShortPadding(p.suffix);
  }

  /** The padding bytes are the domain bits followed by pad10*1. */
  lemma PaddingInBits(p: Params, n: nat)
    requires p.Valid() && p.suffix != 0
    ensures
      var h := DomainBits(p.suffix);
      BitsOf(Padding(p, n)) == Bits(p.suffix)[..h] + Pad101(8 * p.rate, 8 * n + h)
  {
    hide BitsOf, DomainBits, Pad101, PadTo, EndBits;
    PadToInBits(p, p.rate - n % p.rate);
    PadZeros(p, n, DomainBits(p.suffix));
  }

  lemma PadZeros(p: Params, n: nat, h: nat)
    requires p.Valid() && h < 8
    ensures Pad101(8 * p.rate, 8 * n + h) == EndBits(p, p.rate - n % p.rate, h)
  {
    PadLength(p.rate, n, h);
    hide Falses;
  }

  lemma OneByte(b: bv8)
    ensures BitsOf([b]) == Bits(b)
  {
    assert [b][1..] == [];
  }

  /** SHA-3 appends 01 and SHAKE 1111: sections 6.1 and 6.2 of FIPS 202. */
  lemma PoolSuffixes()
    ensures Bits(6)[..DomainBits(6)] == [false, true]
    ensures Bits(31)[..DomainBits(31)] == [true, true, true, true]
  {
    assert Bits(6)[..2] == [false, true];
    assert Bits(31)[..4] == [true, true, true, true];
  }

  // --- The code ------------------------------------------------------------------------------

  class Keccak {
    const p: Params
    const state: array<bv8>
    var pos: nat
    var posOut: nat
    var finished: bool

    constructor (p: Params)
      requires p.Valid()
      ensures this.p == p && Valid() && Value() == START && fresh(state)
    {
      this.p := p;
      state := new bv8[200](_ => 0);
      pos, posOut, finished := 0, 0, false;
      new;
      assert state[..] == ZERO_STATE;
    }

    ghost predicate Valid()
      reads this
    {
      p.Valid() && state.Length == 200 && pos < p.rate
    }

    ghost function Value(): Sponge
      reads this, state
      requires state.Length == 200
    {
      Sponge(state[..], pos, posOut, finished)
    }

    method Reset()
      requires Valid()
      modifies this, state
      ensures Valid() && Value() == START
    {
      forall k | 0 <= k < state.Length { state[k] := 0; }
      pos, posOut, finished := 0, 0, false;
      assert state[..] == ZERO_STATE;
    }

    method Permute()
      requires p.Valid() && state.Length == 200
      modifies this`pos, this`posOut, state
      ensures Valid() && Value() == Permuted(p, old(Value()))
    {
      var permuted := p.permute(state[..]);
      forall k | 0 <= k < state.Length { state[k] := permuted[k]; }
      assert state[..] == permuted;
      pos, posOut := 0, 0;
    }

    method FlipByte(i: nat, b: bv8)
      requires state.Length == 200 && i < 200
      modifies state
      ensures Value() == old(Value()).(state := Flip(old(Value()).state, i, b))
    {
      state[i] := state[i] ^ b;
      assert state[..] == Flip(old(state[..]), i, b);
    }

    method Update(msg: seq<bv8>)
      requires Valid()
      modifies this`pos, this`posOut, state
      ensures Valid() && Value() == Absorb(p, old(Value()), msg)
    {
      hide Absorb, Flip;
      ghost var start := Value();
      StartOfMessage(p, start, msg);
      var i := 0;
      while i < |msg|
        invariant 0 <= i <= |msg| && Valid()
        invariant Value() == Absorb(p, start, msg[..i])
      {
        var n := if p.rate - pos < |msg| - i then p.rate - pos else |msg| - i;
        ghost var at, from := i, pos;
        for a := 0 to n
          invariant i == at + a && pos == from + a
          invariant state.Length == 200 && Settled(p, Value()) == Absorb(p, start, msg[..i])
        {
          AbsorbNext(p, start, msg, i);
          FlipByte(pos, msg[i]);
          pos, i := pos + 1, i + 1;
        }
        if pos == p.rate {
          Permute();
        }
      }
      assert msg[..|msg|] == msg;
    }

    method Finish()
      requires Valid()
      modifies this, state
      ensures Valid() && Value() == Finished(p, old(Value()))
    {
      if finished {
        return;
      }
      hide Flip;
      finished := true;
      FlipByte(pos, p.suffix);
      if p.suffix & 128 != 0 && pos == p.rate - 1 {
        Permute();
      }
      FlipByte(p.rate - 1, 128);
      Permute();
    }

    method Copy(out: array<bv8>, o: nat, n: nat)
      requires state.Length == 200 && out != state && posOut + n <= 200 && o + n <= out.Length
      modifies out
      ensures out[..o + n] == old(out[..o]) + state[posOut..posOut + n]
    {
      forall k | 0 <= k < n { out[o + k] := state[posOut + k]; }
      assert out[..o] == old(out[..o]);
      assert out[o..o + n] == state[posOut..posOut + n];
      assert out[..o + n] == out[..o] + out[o..o + n];
    }

    method WriteInto(out: array<bv8>)
      requires Valid() && out != state
      modifies this, state, out
      ensures Valid() && Squeezed(out[..], Value()) == Squeeze(p, Finished(p, old(Value())), out.Length)
    {
      hide Squeeze, Finished;
      Finish();
      ghost var start := Value();
      assert Squeeze(p, start, 0) == Squeezed([], start) by {
        SqueezeNothing(p, start);
      }
      var o := 0;
      while o < out.Length
        invariant 0 <= o <= out.Length && Valid()
        invariant Squeezed(out[..o], Value()) == Squeeze(p, start, o)
      {
        if posOut >= p.rate {
          Permute();
        }
        var n := if p.rate - posOut < out.Length - o then p.rate - posOut else out.Length - o;
        SqueezeMore(p, start, o, Value(), n);
        Copy(out, o, n);
        posOut, o := posOut + n, o + n;
      }
    }

    /** One use of a pooled sponge: the message in two parts, the output in one piece. */
    method Hash(a: seq<bv8>, b: seq<bv8>, out: array<bv8>)
      requires Valid() && out != state
      modifies this, state, out
      ensures Valid() && out[..] == Reference(p, a + b, out.Length)
    {
      hide Absorb, Squeeze, Finished, Reference;
      Reset();
      Update(a);
      Update(b);
      WriteInto(out);
      SpongeIsReference(p, a, b, out.Length, 0);
      SqueezeNothing(p, Squeeze(p, Finished(p, Absorb(p, Absorb(p, START, a), b)), out.Length).sponge);
    }
  }

  /** n more bytes from s, which is the sponge after o bytes, or that one permuted when it ran out. */
  lemma SqueezeMore(p: Params, start: Sponge, o: nat, s: Sponge, n: nat)
    requires p.Valid() && n > 0 && s.posOut + n <= p.rate
    requires
      var after := Squeeze(p, start, o).sponge;
      s == if after.posOut >= p.rate then Permuted(p, after) else after
    ensures Squeeze(p, start, o + n) ==
      Squeezed(Squeeze(p, start, o).bytes + s.state[s.posOut..s.posOut + n], s.(posOut := s.posOut + n))
  {
    var after := Squeeze(p, start, o).sponge;
    SqueezeSplit(p, start, o, n);
    SqueezeRun(p, s, n);
    hide Squeeze, SqueezeByte;
    if after.posOut >= p.rate {
      PermuteFirst(p, after, n);
    }
  }

  lemma StartOfMessage(p: Params, s: Sponge, msg: seq<bv8>)
    requires p.Valid() && s.pos < p.rate
    ensures Absorb(p, s, msg[..0]) == s
  {
  }

  lemma AbsorbNext(p: Params, s: Sponge, msg: seq<bv8>, i: nat)
    requires p.Valid() && s.pos < p.rate && i < |msg|
    ensures Absorb(p, s, msg[..i + 1]) == AbsorbByte(p, Absorb(p, s, msg[..i]), msg[i])
  {
    assert msg[..i + 1][..i] == msg[..i];
  }
}
