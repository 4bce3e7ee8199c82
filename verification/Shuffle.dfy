/**
  The in-place Fisher-Yates shuffle of the password generator, and the random
  source it draws from.

  A run of the shuffle is fixed by its vector of choices js: at position i it swaps
  with position js[i] <= i. The vector has one entry a position; js[0] is 0.
  */
module Shuffle {

  import opened Prelude

  /** What the calls of the random source will yield, in order. An answer that is not
    below the bound of its call stands for a failing reader, and so does the end. */
  class RandomSource {
    var answers: seq<nat>

    constructor (answers: seq<nat>)
      ensures this.answers == answers
    {
      this.answers := answers;
    }

    /** An index in [0, n), or a failure: n is not positive or the reader failed. */
    method RandomIndex(n: int) returns (ok: bool, index: nat)
      modifies this
      ensures ok <==> n > 0 && |old(answers)| > 0 && old(answers)[0] < n
      ensures ok ==> index == old(answers)[0] && answers == old(answers)[1..]
      ensures !ok ==> answers == if n > 0 && |old(answers)| > 0 then old(answers)[1..] else old(answers)
    {
      ok, index := false, 0;
      if n > 0 && |answers| > 0 {
        ok, index := answers[0] < n, answers[0];
        answers := answers[1..];
      }
    }
  }

  ghost predicate IsChoiceVector(js: seq<nat>) {
    forall i :: 0 <= i < |js| ==> js[i] <= i
  }

  function Swap<T>(s: seq<T>, i: nat, j: nat): (t: seq<T>)
    requires i < |s| && j < |s|
    ensures |t| == |s| && t[i] == s[j] && t[j] == s[i]
    ensures forall k :: 0 <= k < |s| && k != i && k != j ==> t[k] == s[k]
  {
    s[i := s[j]][j := s[i]]
  }

  /** What the shuffle makes of s under the choices js. */
  ghost function Shuffled<T>(s: seq<T>, js: seq<nat>): (r: seq<T>)
    requires |js| == |s| && IsChoiceVector(js)
    ensures |r| == |s|
    decreases |s|
  {
    if s == [] then [] else
      var n := |s| - 1;
      var t := Swap(s, n, js[n]);
      Shuffled(t[..n], js[..n]) + [t[n]]
  }

  /** The shuffle loses no element and invents none. */
  lemma {:induction false} ShuffledKeepsElements<T>(s: seq<T>, js: seq<nat>, x: T)
    requires |js| == |s| && IsChoiceVector(js)
    ensures x in Shuffled(s, js) <==> x in s
    decreases |s|
  {
    if s != [] {
      var n := |s| - 1;
      var t := Swap(s, n, js[n]);
      ShuffledKeepsElements(t[..n], js[..n], x);
      assert t == t[..n] + [t[n]];
      if x in s {
        var i := IndexOf(s, x);
        assert t[if i == n then js[n] else if i == js[n] then n else i] == x;
      }
    }
  }

  ghost predicate Below(p: seq<nat>, n: nat) {
    forall k :: 0 <= k < |p| ==> p[k] < n
  }

  /** The elements of v at the positions p. */
  ghost function Pick<T>(v: seq<T>, p: seq<nat>): (r: seq<T>)
    requires Below(p, |v|)
    ensures |r| == |p| && forall k :: 0 <= k < |p| ==> r[k] == v[p[k]]
  {
    seq(|p|, k requires 0 <= k < |p| => v[p[k]])
  }

  lemma {:induction false} ShuffledBelow(p: seq<nat>, js: seq<nat>, n: nat)
    requires |js| == |p| && IsChoiceVector(js) && Below(p, n)
    ensures Below(Shuffled(p, js), n)
    decreases |p|
  {
    if p != [] {
      var m := |p| - 1;
      ShuffledBelow(Swap(p, m, js[m])[..m], js[..m], n);
    }
  }

  /** The shuffle moves positions and never looks at the elements: shuffling elements
    picked by position is picking by the shuffled positions. */
  lemma {:induction false} ShuffleMovesPositions<T>(v: seq<T>, p: seq<nat>, js: seq<nat>)
    requires |js| == |p| && IsChoiceVector(js) && Below(p, |v|)
    ensures Below(Shuffled(p, js), |v|)
    ensures Shuffled(Pick(v, p), js) == Pick(v, Shuffled(p, js))
    decreases |p|
  {
    ShuffledBelow(p, js, |v|);
    if p != [] {
      var n := |p| - 1;
      var t := Swap(p, n, js[n]);
      var u := Swap(Pick(v, p), n, js[n]);
      assert u[..n] == Pick(v, t[..n]);
      ShuffleMovesPositions(v, t[..n], js[..n]);
      assert Shuffled(p, js) == Shuffled(t[..n], js[..n]) + [t[n]];
      assert Pick(v, Shuffled(p, js)) == Pick(v, Shuffled(t[..n], js[..n])) + [v[t[n]]];
    }
  }

  ghost function IndexOf<T>(s: seq<T>, x: T): (i: nat)
    requires x in s
    ensures i < |s| && s[i] == x
  {
    if s[0] == x then 0 else 1 + IndexOf(s[1..], x)
  }

  /** target holds the elements of s, all different, in another order. */
  ghost predicate Rearranges<T(!new)>(s: seq<T>, target: seq<T>) {
    |target| == |s| && IsDistinct(s) && IsDistinct(target) && forall k :: 0 <= k < |target| ==> target[k] in s
  }

  /** Once the last element is in place, the rest is a smaller rearrangement. */
  lemma SwapToEnd<T(!new)>(s: seq<T>, target: seq<T>, j: nat)
    requires Rearranges(s, target) && s != []
    requires j < |s| && s[j] == target[|s| - 1]
    ensures Rearranges(Swap(s, |s| - 1, j)[..|s| - 1], target[..|s| - 1])
  {
    var n := |s| - 1;
    var t := Swap(s, n, j)[..n];
    forall k | 0 <= k < n ensures target[..n][k] in t {
      var i := IndexOf(s, target[k]);
      assert t[if i == n then j else i] == target[k];
    }
  }

  /** The choices that take s to target. */
  ghost function ChoicesFor<T(!new)>(s: seq<T>, target: seq<T>): (js: seq<nat>)
    requires Rearranges(s, target)
    ensures |js| == |s| && IsChoiceVector(js)
    decreases |s|
  {
    if s == [] then [] else
      var n := |s| - 1;
      var j := IndexOf(s, target[n]);
      SwapToEnd(s, target, j);
      ChoicesFor(Swap(s, n, j)[..n], target[..n]) + [j]
  }

  /** Every rearrangement arises from some vector of choices. */
  lemma {:induction false} ShuffleReaches<T(!new)>(s: seq<T>, target: seq<T>)
    requires Rearranges(s, target)
    ensures Shuffled(s, ChoicesFor(s, target)) == target
    decreases |s|
  {
    if s != [] {
      var n := |s| - 1;
      var j := IndexOf(s, target[n]);
      SwapToEnd(s, target, j);
      var t := Swap(s, n, j);
      ShuffleReaches(t[..n], target[..n]);
      var js := ChoicesFor(s, target);
      LastAndRest(js[..n], js[n], ChoicesFor(t[..n], target[..n]), j);
      assert Shuffled(s, js) == Shuffled(t[..n], js[..n]) + [t[n]];
      assert target == target[..n] + [target[n]];
    }
  }

  /** And from no other: different choices on distinct elements give different results. */
  lemma {:induction false} ShuffleIsInjective<T(!new)>(s: seq<T>, js: seq<nat>, ks: seq<nat>)
    requires IsDistinct(s)
    requires |js| == |s| && IsChoiceVector(js) && |ks| == |s| && IsChoiceVector(ks)
    requires Shuffled(s, js) == Shuffled(s, ks)
    ensures js == ks
    decreases |s|
  {
    if s != [] {
      var n := |s| - 1;
      var t, u := Swap(s, n, js[n]), Swap(s, n, ks[n]);
      LastAndRest(Shuffled(t[..n], js[..n]), t[n], Shuffled(u[..n], ks[..n]), u[n]);
      assert js[n] == ks[n];
      ShuffleIsInjective(t[..n], js[..n], ks[..n]);
      assert js == js[..n] + [js[n]] && ks == ks[..n] + [ks[n]];
    }
  }

  lemma LastAndRest<T>(a: seq<T>, x: T, b: seq<T>, y: T)
    requires |a| == |b| && a + [x] == b + [y]
    ensures a == b && x == y
  {
    assert a == (a + [x])[..|a|] && b == (b + [y])[..|b|];
    assert x == (a + [x])[|a|] && y == (b + [y])[|b|];
  }

  ghost function Positions(n: nat): (p: seq<nat>)
    ensures |p| == n && forall k :: 0 <= k < n ==> p[k] == k
  {
    seq(n, k => k)
  }

  /** A way to reorder the positions 0, ..., n-1: each occurs once. */
  ghost predicate IsReordering(p: seq<nat>) {
    IsDistinct(p) && Below(p, |p|)
  }

  /** js reorders the positions by p. */
  ghost predicate Chooses(js: seq<nat>, p: seq<nat>) {
    |js| == |p| && IsChoiceVector(js) && Shuffled(Positions(|p|), js) == p
  }

  /** The shuffle is exact: choice vectors and reorderings of the positions match one to
    one, so uniform choices give uniform reorderings. */
  lemma ShuffleIsExact(p: seq<nat>)
    requires IsReordering(p)
    ensures exists js: seq<nat> :: Chooses(js, p)
    ensures forall js, ks: seq<nat> :: Chooses(js, p) && Chooses(ks, p) ==> js == ks
  {
    var start := Positions(|p|);
    assert forall k :: 0 <= k < |p| ==> start[p[k]] == p[k];
    ShuffleReaches(start, p);
    assert Chooses(ChoicesFor(start, p), p);
    forall js, ks: seq<nat> | Chooses(js, p) && Chooses(ks, p) ensures js == ks {
      ShuffleIsInjective(start, js, ks);
    }
  }

  /** The other direction: a vector of choices always stands for a reordering, and the
    elements follow it, whatever they are. */
  lemma ChoicesReorder<T>(s: seq<T>, js: seq<nat>)
    requires |js| == |s| && IsChoiceVector(js)
    ensures IsReordering(Shuffled(Positions(|s|), js))
    ensures Shuffled(s, js) == Pick(s, Shuffled(Positions(|s|), js))
  {
    var start := Positions(|s|);
    ShuffledDistinct(start, js);
    ShuffleMovesPositions(s, start, js);
    assert Pick(s, start) == s;
  }

  lemma {:induction false} ShuffledDistinct<T(!new)>(s: seq<T>, js: seq<nat>)
    requires |js| == |s| && IsChoiceVector(js) && IsDistinct(s)
    ensures Rearranges(s, Shuffled(s, js))
    decreases |s|
  {
    if s != [] {
      var n := |s| - 1;
      var t := Swap(s, n, js[n]);
      var r := Shuffled(t[..n], js[..n]);
      ShuffledDistinct(t[..n], js[..n]);
      forall k | 0 <= k < n ensures r[k] in s && r[k] != t[n] {
        var i := IndexOf(t[..n], r[k]);
        assert t[i] == r[k] && t[i] in s;
      }
      assert Shuffled(s, js) == r + [t[n]];
    }
  }

  /** A working source: it can serve calls with these bounds, one after the other. */
  ghost predicate Serves(answers: seq<nat>, bounds: seq<nat>) {
    |bounds| <= |answers| && forall k :: 0 <= k < |bounds| ==> answers[k] < bounds[k]
  }

  /** The bounds of the calls the shuffle of n elements makes: n, n-1, ..., 2. */
  ghost function ShuffleBounds(n: nat): (b: seq<nat>)
    ensures |b| == if n == 0 then 0 else n - 1
    ensures forall k :: 0 <= k < |b| ==> b[k] == n - k
  {
    seq(if n == 0 then 0 else n - 1, k requires 0 <= k < n => n - k)
  }

  /** The choices a source makes: its first answer is for the last position. */
  ghost function ChoicesFrom(answers: seq<nat>, n: nat): (js: seq<nat>)
    requires Serves(answers, ShuffleBounds(n))
    ensures |js| == n && IsChoiceVector(js)
    ensures forall i :: 0 < i < n ==> js[i] == answers[n - 1 - i]
  {
    seq(n, i requires 0 <= i < n => if i == 0 then 0 else
      assert ShuffleBounds(n)[n - 1 - i] == i + 1;
      answers[n - 1 - i])
  }

  /** The shuffle has come down to position m: what is left to do is the shuffle of the
    first m elements. */
  ghost predicate SettledFrom<T(!new)>(was: seq<T>, js: seq<nat>, now: seq<T>, m: nat)
    requires |js| == |was| == |now| && IsChoiceVector(js) && m <= |was|
  {
    Shuffled(was, js) == Shuffled(now[..m], js[..m]) + now[m..]
  }

  /** One turn of the loop: the swap at position i settles it for good. */
  lemma ShuffleTurn<T(!new)>(was: seq<T>, now: seq<T>, js: seq<nat>, i: nat)
    requires |js| == |was| == |now| && IsChoiceVector(js) && i < |was|
    requires SettledFrom(was, js, now, i + 1)
    ensures SettledFrom(was, js, Swap(now, i, js[i]), i)
  {
    var t := Swap(now, i, js[i]);
    assert Swap(now[..i + 1], i, js[..i + 1][i])[..i] == t[..i];
    assert js[..i + 1][..i] == js[..i];
    assert t[i..] == [t[i]] + now[i + 1..];
  }

  lemma ShuffleEnds<T(!new)>(was: seq<T>, js: seq<nat>, now: seq<T>)
    requires |js| == |was| == |now| && IsChoiceVector(js)
    ensures SettledFrom(was, js, was, |was|)
    ensures SettledFrom(was, js, now, if was == [] then 0 else 1) ==> Shuffled(was, js) == now
  {
    assert was[..|was|] == was && js[..|was|] == js;
    if was != [] {
      assert now == now[..1] + now[1..];
    }
  }

  lemma ServesShuffle(answers: seq<nat>, n: nat)
    ensures Serves(answers, ShuffleBounds(n)) <==>
      (n > 0 ==> n - 1 <= |answers|) && forall k :: 0 <= k < n - 1 ==> answers[k] < n - k
  {
    assert forall k :: 0 <= k < n - 1 ==> ShuffleBounds(n)[k] == n - k;
  }

  /** Shuffles in place. It succeeds exactly when the source serves every call. */
  method ShuffleRunes(runes: array<char>, source: RandomSource) returns (ok: bool)
    modifies runes, source
    ensures ok <==> Serves(old(source.answers), ShuffleBounds(runes.Length))
    ensures ok ==> runes[..] == Shuffled(old(runes[..]), ChoicesFrom(old(source.answers), runes.Length))
  {
    hide Shuffled, SettledFrom, Rearranges, IsDistinct, Serves, ShuffleBounds, ChoicesFrom;
    ghost var n, was, answers := runes.Length, runes[..], source.answers;
    ghost var good := Serves(answers, ShuffleBounds(n));
    ghost var js := if good then ChoicesFrom(answers, n) else seq(n, _ => 0);
    ghost var now, calls := was, 0;
    ServesShuffle(answers, n);
    ShuffleEnds(was, js, now);
    var i := runes.Length - 1;
    while i > 0
      invariant i == n - 1 - calls && (i < 0 ==> n == 0)
      invariant runes[..] == now && |now| == n
      invariant calls <= |answers| && source.answers == answers[calls..]
      invariant forall k :: 0 <= k < calls ==> answers[k] < n - k
      invariant good && i >= 0 ==> SettledFrom(was, js, now, i + 1)
    {
      var served, j := source.RandomIndex(i + 1);
      if !served {
        return false;
      }
      if good {
        ShuffleTurn(was, now, js, i);
      }
      runes[i], runes[j] := runes[j], runes[i];
      now := Swap(now, i, j);
      i, calls := i - 1, calls + 1;
    }
    ShuffleEnds(was, js, now);
    ok := true;
  }
}
