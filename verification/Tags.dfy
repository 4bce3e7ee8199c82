/**
  Entry tags of the command line: normal form, edits and counts. The lower-case mapping of
  Unicode is a parameter.
  */
module Tags {
  import opened Prelude

  const MAX_TAG_LENGTH := 40

  // --- The normal form of one tag ---------------------------------------------------------

  function TrimHashes(s: string): (r: string)
    ensures r == "" || r[0] != '#'
    ensures |r| <= |s|
  {
    if s != "" && s[0] == '#' then TrimHashes(s[1..]) else s
  }

  /** Exactly the leading '#' go. */
  lemma {:induction false} TrimHashesExactly(s: string)
    ensures var r := TrimHashes(s);
      && r == s[|s| - |r|..] && (r == "" || r[0] != '#')
      && forall k :: 0 <= k < |s| - |r| ==> s[k] == '#'
  {
    if s != "" && s[0] == '#' {
      TrimHashesExactly(s[1..]);
    }
  }

  predicate IsWord(w: string) {
    w != "" && forall k :: 0 <= k < |w| ==> !IsSpace(w[k])
  }

  predicate AreWords(ws: seq<string>) {
    forall k :: 0 <= k < |ws| ==> IsWord(ws[k])
  }

  /** strings.Fields. */
  function Words(s: string): (ws: seq<string>)
    ensures AreWords(ws)
    ensures s != "" && !IsSpace(s[|s| - 1]) ==> ws != []
  {
    if s == "" then [] else
      var n := |s| - 1;
      var front := Words(s[..n]);
      if IsSpace(s[n]) then front
      else if n == 0 || IsSpace(s[n - 1]) then front + [[s[n]]]
      else front[..|front| - 1] + [front[|front| - 1] + [s[n]]]
  }

  function NormalizeTag(s: string): string {
    Join(Words(TrimHashes(TrimSpace(s))), " ")
  }

  lemma WordsNext(s: string, c: char)
    ensures IsSpace(c) ==> Words(s + [c]) == Words(s)
    ensures !IsSpace(c) && (s == "" || IsSpace(s[|s| - 1])) ==> Words(s + [c]) == Words(s) + [[c]]
    ensures !IsSpace(c) && s != "" && !IsSpace(s[|s| - 1]) ==>
      && Words(s) != []
      && Words(s + [c]) == Words(s)[..|Words(s)| - 1] + [Words(s)[|Words(s)| - 1] + [c]]
  {
    hide IsSpace, AreWords;
    assert (s + [c])[..|s|] == s;
  }

  lemma {:induction false} WordsAppend(s: string, w: string)
    requires IsWord(w) && (s == "" || IsSpace(s[|s| - 1]))
    ensures Words(s + w) == Words(s) + [w]
  {
    hide *;
    WordEnds(w);
    var n := |w| - 1;
    if n == 0 {
      WordsNext(s, w[0]);
    } else {
      WordsAppend(s, w[..n]);
      WordsNext(s + w[..n], w[n]);
      Regroup(s, w[..n], [w[n]]);
    }
  }

  lemma WordEnds(w: string)
    requires IsWord(w)
    ensures w != "" && !IsSpace(w[|w| - 1]) && w == w[..|w| - 1] + [w[|w| - 1]]
    ensures |w| > 1 ==> IsWord(w[..|w| - 1]) && !IsSpace(w[|w| - 2])
    ensures |w| == 1 ==> w == [w[0]]
  {
    hide IsSpace;
  }

  lemma {:induction false} WordsOfJoined(ws: seq<string>)
    requires AreWords(ws)
    ensures Words(Join(ws, " ")) == ws
  {
    hide Words, IsWord, IsSpace;
    if ws != [] {
      var n := |ws| - 1;
      assert IsWord(ws[n]) && ws == ws[..n] + [ws[n]];
      if n == 0 {
        WordsOfWord(ws[0]);
      } else {
        WordsOfJoined(ws[..n]);
        WordsAfterSpace(Join(ws[..n], " "), ws[n]);
      }
    } else {
      NoWords();
    }
  }

  lemma NoWords()
    ensures Words("") == []
  {
  }

  lemma WordsAfterSpace(s: string, w: string)
    requires IsWord(w)
    ensures Words(s + " " + w) == Words(s) + [w]
  {
    assert IsSpace(' ') && (s + " ")[|s|] == ' ';
    WordsNext(s, ' ');
    WordsAppend(s + " ", w);
  }

  lemma WordsOfWord(w: string)
    requires IsWord(w)
    ensures Words(w) == [w] && Words(" " + w) == [w]
  {
    hide *;
    WordsAfterSpace("", w);
    WordsAppend("", w);
    NoWords();
    NothingBefore(w);
    NothingBefore([w]);
    NothingBefore(" ");
  }

  lemma NothingBefore<T>(s: seq<T>)
    ensures [] + s == s
  {
  }

  lemma {:induction false} JoinedIsTrimmed(ws: seq<string>)
    requires AreWords(ws) && ws != []
    ensures Join(ws, " ") != "" && !IsSpace(Join(ws, " ")[0]) && !IsSpace(Join(ws, " ")[|Join(ws, " ")| - 1])
  {
    if |ws| > 1 {
      JoinedIsTrimmed(ws[..|ws| - 1]);
      assert IsWord(ws[|ws| - 1]);
    }
  }

  /** Collapsing spaces never makes a text longer. */
  lemma {:induction false} JoinedFits(s: string)
    ensures |Join(Words(s), " ")| <= |s|
    ensures s != "" && IsSpace(s[|s| - 1]) ==> |Join(Words(s), " ")| < |s|
  {
    if s != "" {
      var n := |s| - 1;
      var front, ws := Words(s[..n]), Words(s);
      JoinedFits(s[..n]);
      if !IsSpace(s[n]) {
        if n == 0 || IsSpace(s[n - 1]) {
          assert ws[..|ws| - 1] == front;
        } else {
          assert ws[..|ws| - 1] == front[..|front| - 1];
        }
      }
    }
  }

  /** Normalising twice is normalising once exactly if the result does not start with '#'. */
  lemma NormalizeTwiceExactly(s: string)
    ensures NormalizeTag(NormalizeTag(s)) == NormalizeTag(s) <==> NormalizeTag(s) == "" || NormalizeTag(s)[0] != '#'
  {
    var ws := Words(TrimHashes(TrimSpace(s)));
    var t := Join(ws, " ");
    if ws != [] {
      JoinedIsTrimmed(ws);
    }
    if t == "" || t[0] != '#' {
      WordsOfJoined(ws);
    } else {
      JoinedFits(TrimHashes(t));
    }
  }

  // --- Tag lists --------------------------------------------------------------------------

  type Lower = char -> char

  /** The comparison form of a tag. */
  function Key(lower: Lower, tag: string): string {
    MapChars(lower, NormalizeTag(tag))
  }

  function Keys(lower: Lower, tags: seq<string>): set<string> {
    set k | 0 <= k < |tags| :: Key(lower, tags[k])
  }

  lemma KeysConcat(lower: Lower, a: seq<string>, b: seq<string>)
    ensures Keys(lower, a + b) == Keys(lower, a) + Keys(lower, b)
  {
    hide Key;
    var all := a + b;
    forall k | 0 <= k < |a| ensures Key(lower, a[k]) in Keys(lower, all) {
      assert all[k] == a[k];
    }
    forall k | 0 <= k < |b| ensures Key(lower, b[k]) in Keys(lower, all) {
      assert all[|a| + k] == b[k];
    }
  }

  lemma KeysAppend(lower: Lower, tags: seq<string>, tag: string)
    ensures Keys(lower, tags + [tag]) == Keys(lower, tags) + {Key(lower, tag)}
  {
    hide Key;
    KeysConcat(lower, tags, [tag]);
    assert [tag][0] == tag;
    assert Keys(lower, [tag]) == {Key(lower, tag)};
  }

  lemma KeysNext(lower: Lower, tags: seq<string>, n: nat)
    requires n < |tags|
    ensures Keys(lower, tags[..n + 1]) == Keys(lower, tags[..n]) + {Key(lower, tags[n])}
  {
    hide Key;
    assert tags[..n + 1] == tags[..n] + [tags[n]];
    KeysAppend(lower, tags[..n], tags[n]);
  }

  /** The tag that is kept for a key: the first one with it. */
  function FirstWith(lower: Lower, tags: seq<string>, key: string): (first: Option<string>)
    ensures first.Some? <==> key in Keys(lower, tags)
    ensures first.Some? ==> first.value in tags && Key(lower, first.value) == key
  {
    if tags == [] then None else
      var n := |tags| - 1;
      var front := FirstWith(lower, tags[..n], key);
      KeysNext(lower, tags, n);
      assert tags[..n + 1] == tags;
      if front.Some? then front else if Key(lower, tags[n]) == key then Some(tags[n]) else None
  }

  /** The normalised tags, each key once, in its first spelling and place. */
  function Normalized(lower: Lower, tags: seq<string>): seq<string> {
    if tags == [] then [] else
      var n := |tags| - 1;
      var tag := NormalizeTag(tags[n]);
      Normalized(lower, tags[..n])
        + if tag == "" || Key(lower, tags[n]) in Keys(lower, tags[..n]) then [] else [tag]
  }

  /** The keys of tags that are stored, which are normalised already. */
  function Spelled(lower: Lower, tags: seq<string>): seq<string> {
    seq(|tags|, k requires 0 <= k < |tags| => MapChars(lower, tags[k]))
  }

  lemma SpelledAppend(lower: Lower, tags: seq<string>, tag: string)
    ensures Spelled(lower, tags + [tag]) == Spelled(lower, tags) + [MapChars(lower, tag)]
  {
  }

  ghost predicate SpellsExactly(lower: Lower, out: seq<string>, keys: set<string>) {
    && IsDistinct(Spelled(lower, out))
    && forall key :: key in Spelled(lower, out) <==> key in keys
  }

  lemma SpellsMore(lower: Lower, out: seq<string>, keys: set<string>, tag: string)
    requires SpellsExactly(lower, out, keys) && MapChars(lower, tag) !in keys
    ensures SpellsExactly(lower, out + [tag], keys + {MapChars(lower, tag)})
  {
    SpelledAppend(lower, out, tag);
    hide Spelled;
    var spelled, key := Spelled(lower, out), MapChars(lower, tag);
    forall k | 0 <= k < |spelled| ensures spelled[k] != key {
      assert spelled[k] in spelled;
    }
  }

  /** Exactly the keys of the list but the empty one, each in one spelling. */
  lemma {:induction false} NormalizedExactly(lower: Lower, tags: seq<string>)
    ensures SpellsExactly(lower, Normalized(lower, tags), Keys(lower, tags) - {""})
  {
    hide SpellsExactly, Keys, NormalizeTag;
    if tags == [] {
      NothingSpelled(lower);
    } else {
      var n := |tags| - 1;
      var key := Key(lower, tags[n]);
      NormalizedExactly(lower, tags[..n]);
      KeysNext(lower, tags, n);
      assert tags[..n + 1] == tags;
      if key == "" || key in Keys(lower, tags[..n]) {
        assert Keys(lower, tags) - {""} == Keys(lower, tags[..n]) - {""};
        assert Normalized(lower, tags) == Normalized(lower, tags[..n]) + [] == Normalized(lower, tags[..n]);
      } else {
        SpellsMore(lower, Normalized(lower, tags[..n]), Keys(lower, tags[..n]) - {""}, NormalizeTag(tags[n]));
        assert Keys(lower, tags) - {""} == Keys(lower, tags[..n]) - {""} + {key};
      }
    }
  }

  lemma NothingSpelled(lower: Lower)
    ensures SpellsExactly(lower, Normalized(lower, []), Keys(lower, []) - {""})
  {
  }

  /** Each spelling is that of the first tag with its key. */
  lemma {:induction false} FirstSpellingWins(lower: Lower, tags: seq<string>, k: nat)
    requires k < |Normalized(lower, tags)|
    ensures
      var tag := Normalized(lower, tags)[k];
      var first := FirstWith(lower, tags, MapChars(lower, tag));
      first.Some? && tag == NormalizeTag(first.value)
  {
    hide Keys, NormalizeTag;
    var n := |tags| - 1;
    var front := Normalized(lower, tags[..n]);
    if k < |front| {
      FirstSpellingWins(lower, tags[..n], k);
    } else {
      assert Normalized(lower, tags)[k] == NormalizeTag(tags[n]);
    }
  }

  method NormalizeTags(lower: Lower, tags: seq<string>) returns (r: Result<seq<string>, ()>)
    ensures r.Err? <==> exists k :: 0 <= k < |tags| && |NormalizeTag(tags[k])| > 40
    ensures r.Ok? ==> r.value == Normalized(lower, tags)
  {
    hide NormalizeTag, Keys;
    var out, seen := [], {};
    assert Keys(lower, []) == {} by { NoKeys(lower); }
    for i := 0 to |tags|
      invariant forall k :: 0 <= k < i ==> |NormalizeTag(tags[k])| <= 40
      invariant out == Normalized(lower, tags[..i])
      invariant seen == Keys(lower, tags[..i]) - {""}
    {
      assert tags[..i + 1][..i] == tags[..i];
      KeysNext(lower, tags, i);
      var tag := NormalizeTag(tags[i]);
      if tag == "" {
        continue;
      }
      if |tag| > MAX_TAG_LENGTH {
        assert |NormalizeTag(tags[i])| > 40;
        return Err(());
      }
      var key := MapChars(lower, tag);
      if key in seen {
        continue;
      }
      seen := seen + {key};
      out := out + [tag];
    }
    assert tags[..|tags|] == tags;
    r := Ok(out);
  }

  lemma NoKeys(lower: Lower)
    ensures Keys(lower, []) == {}
  {
  }

  function Without(lower: Lower, tags: seq<string>, drop: set<string>): seq<string> {
    if tags == [] then [] else
      var n := |tags| - 1;
      Without(lower, tags[..n], drop) + if Key(lower, tags[n]) in drop then [] else [tags[n]]
  }

  lemma {:induction false} WithoutKeys(lower: Lower, tags: seq<string>, drop: set<string>)
    ensures Keys(lower, Without(lower, tags, drop)) == Keys(lower, tags) - drop
  {
    hide Key;
    if tags == [] {
      NoKeys(lower);
    } else {
      var n := |tags| - 1;
      var front := Without(lower, tags[..n], drop);
      WithoutKeys(lower, tags[..n], drop);
      KeysNext(lower, tags, n);
      KeysAppend(lower, front, tags[n]);
      assert tags[..n + 1] == tags && front + [] == front;
    }
  }

  method CollectKeys(lower: Lower, tags: seq<string>) returns (keys: set<string>)
    ensures keys == Keys(lower, tags)
  {
    hide Key, Keys;
    NoKeys(lower);
    keys := {};
    for i := 0 to |tags|
      invariant keys == Keys(lower, tags[..i])
    {
      KeysNext(lower, tags, i);
      keys := keys + {Key(lower, tags[i])};
    }
    assert tags[..|tags|] == tags;
  }

  /** idx lists positions in order. */
  predicate IsIncreasing(idx: seq<nat>, n: nat) {
    && (forall k :: 0 <= k < |idx| ==> idx[k] < n)
    && (forall j, k :: 0 <= j < k < |idx| ==> idx[j] < idx[k])
  }

  /** In order, exactly the positions of the tags without a dropped key. */
  ghost predicate AreKept(lower: Lower, tags: seq<string>, drop: set<string>, idx: seq<nat>) {
    IsIncreasing(idx, |tags|) && forall i :: 0 <= i < |tags| ==> (i in idx <==> Key(lower, tags[i]) !in drop)
  }

  /** What is kept is every tag without a dropped key, in its place and spelling. */
  lemma {:induction false} WithoutKeepsOrder(lower: Lower, tags: seq<string>, drop: set<string>)
    returns (idx: seq<nat>)
    ensures AreKept(lower, tags, drop, idx) && |idx| == |Without(lower, tags, drop)|
    ensures forall k :: 0 <= k < |idx| ==> Without(lower, tags, drop)[k] == tags[idx[k]]
  {
    hide Key, AreKept;
    idx := [];
    if tags == [] {
      assert AreKept(lower, [], drop, []) by { NothingKept(lower, drop); }
    } else {
      var n := |tags| - 1;
      var front := WithoutKeepsOrder(lower, tags[..n], drop);
      MoreKept(lower, tags, drop, front);
      KeptAreBelow(lower, tags[..n], drop, front);
      idx := if Key(lower, tags[n]) in drop then front else front + [n];
    }
  }

  lemma NothingKept(lower: Lower, drop: set<string>)
    ensures AreKept(lower, [], drop, [])
  {
  }

  lemma KeptAreBelow(lower: Lower, tags: seq<string>, drop: set<string>, idx: seq<nat>)
    requires AreKept(lower, tags, drop, idx)
    ensures forall k :: 0 <= k < |idx| ==> idx[k] < |tags|
  {
  }

  lemma MoreKept(lower: Lower, tags: seq<string>, drop: set<string>, front: seq<nat>)
    requires tags != [] && AreKept(lower, tags[..|tags| - 1], drop, front)
    ensures AreKept(lower, tags, drop,
                    if Key(lower, tags[|tags| - 1]) in drop then front else front + [|tags| - 1])
  {
    hide Key;
    var n := |tags| - 1;
    var idx := if Key(lower, tags[n]) in drop then front else front + [n];
    forall i | 0 <= i < |tags| ensures i in idx <==> Key(lower, tags[i]) !in drop {
      assert i < n ==> tags[..n][i] == tags[i] && (i in front <==> Key(lower, tags[i]) !in drop);
      assert i in idx <==> i in front || (i == n && Key(lower, tags[n]) !in drop);
    }
  }

  /** The first tag with its key, which is not the empty one. */
  ghost predicate IsFirst(lower: Lower, tags: seq<string>, i: nat)
    requires i < |tags|
  {
    NormalizeTag(tags[i]) != "" && forall j :: 0 <= j < i ==> Key(lower, tags[j]) != Key(lower, tags[i])
  }

  /** What is stored is the normal form of the first tag with each key but the empty one, in the
    order of the list. */
  lemma {:induction false} NormalizedKeepsOrder(lower: Lower, tags: seq<string>) returns (idx: seq<nat>)
    ensures AreFirsts(lower, tags, idx)
    ensures |idx| == |Normalized(lower, tags)|
    ensures forall k :: 0 <= k < |idx| ==> Normalized(lower, tags)[k] == NormalizeTag(tags[idx[k]])
  {
    hide Key, Keys, NormalizeTag, AreFirsts, IsFirst;
    idx := [];
    if tags == [] {
      assert AreFirsts(lower, [], []) by { NoFirsts(lower); }
    } else {
      var n := |tags| - 1;
      var front := NormalizedKeepsOrder(lower, tags[..n]);
      FirstExactly(lower, tags, n);
      MoreFirsts(lower, tags, front);
      AreBelow(lower, tags[..n], front);
      idx := if IsFirst(lower, tags, n) then front + [n] else front;
    }
  }

  /** In order, exactly the positions of the firsts. */
  ghost predicate AreFirsts(lower: Lower, tags: seq<string>, idx: seq<nat>) {
    IsIncreasing(idx, |tags|) && forall i :: 0 <= i < |tags| ==> (i in idx <==> IsFirst(lower, tags, i))
  }

  lemma NoFirsts(lower: Lower)
    ensures AreFirsts(lower, [], [])
  {
  }

  lemma AreBelow(lower: Lower, tags: seq<string>, idx: seq<nat>)
    requires AreFirsts(lower, tags, idx)
    ensures forall k :: 0 <= k < |idx| ==> idx[k] < |tags|
  {
  }

  lemma MoreFirsts(lower: Lower, tags: seq<string>, front: seq<nat>)
    requires tags != [] && AreFirsts(lower, tags[..|tags| - 1], front)
    ensures AreFirsts(lower, tags, if IsFirst(lower, tags, |tags| - 1) then front + [|tags| - 1] else front)
  {
    hide Key, NormalizeTag;
    var n := |tags| - 1;
    var idx := if IsFirst(lower, tags, n) then front + [n] else front;
    forall i | 0 <= i < n ensures IsFirst(lower, tags[..n], i) <==> IsFirst(lower, tags, i) {
      assert forall j :: 0 <= j <= i ==> tags[..n][j] == tags[j];
    }
    hide IsFirst;
    forall i | 0 <= i < |tags| ensures i in idx <==> IsFirst(lower, tags, i) {
      assert i < n ==> (i in front <==> IsFirst(lower, tags[..n], i));
      assert i in idx <==> i in front || (i == n && IsFirst(lower, tags, n));
    }
  }

  lemma FirstExactly(lower: Lower, tags: seq<string>, n: nat)
    requires n < |tags|
    ensures IsFirst(lower, tags, n) <==>
      NormalizeTag(tags[n]) != "" && Key(lower, tags[n]) !in Keys(lower, tags[..n])
  {
    KeysMembers(lower, tags[..n], Key(lower, tags[n]));
    hide Key, Keys, NormalizeTag;
    if Key(lower, tags[n]) in Keys(lower, tags[..n]) {
      var tag :| tag in tags[..n] && Key(lower, tag) == Key(lower, tags[n]);
      var j :| 0 <= j < n && tags[j] == tag;
    } else {
      forall j | 0 <= j < n ensures Key(lower, tags[j]) != Key(lower, tags[n]) {
        assert tags[j] in tags[..n];
      }
    }
  }

  method RemoveTags(lower: Lower, tags: seq<string>, remove: seq<string>) returns (out: seq<string>)
    ensures out == Without(lower, tags, Keys(lower, remove))
  {
    hide Key, Keys;
    var drop := CollectKeys(lower, remove);
    out := [];
    for i := 0 to |tags|
      invariant out == Without(lower, tags[..i], drop)
    {
      assert tags[..i + 1][..i] == tags[..i];
      if Key(lower, tags[i]) !in drop {
        out := out + [tags[i]];
      }
    }
    assert tags[..|tags|] == tags;
  }

  /** Whether the tags hold every wanted one. */
  method HasTags(lower: Lower, tags: seq<string>, want: seq<string>) returns (all: bool)
    ensures all <==> Keys(lower, want) <= Keys(lower, tags)
  {
    hide Key;
    var have := CollectKeys(lower, tags);
    for i := 0 to |want|
      invariant forall k :: 0 <= k < i ==> Key(lower, want[k]) in have
    {
      if Key(lower, want[i]) !in have {
        return false;
      }
    }
    return true;
  }

  /** The keys an edit is meant to leave. */
  function EditedKeys(
    lower: Lower, current: seq<string>, clearAll: bool, remove: seq<string>, add: seq<string>): set<string>
  {
    ((if clearAll then {} else Keys(lower, current) - Keys(lower, remove)) + Keys(lower, add)) - {""}
  }

  /** The tags an edit leaves, before they are normalised: the kept ones, then the added ones. */
  function Listed(
    lower: Lower, current: seq<string>, clearAll: bool, remove: seq<string>, add: seq<string>): seq<string>
  {
    Without(lower, if clearAll then [] else current, Keys(lower, remove)) + add
  }

  lemma ListedKeys(lower: Lower, current: seq<string>, clearAll: bool, remove: seq<string>, add: seq<string>)
    ensures Keys(lower, Listed(lower, current, clearAll, remove, add)) - {""} ==
      EditedKeys(lower, current, clearAll, remove, add)
  {
    hide Key, Keys, Without;
    var tags := if clearAll then [] else current;
    NoKeys(lower);
    WithoutKeys(lower, tags, Keys(lower, remove));
    KeysConcat(lower, Without(lower, tags, Keys(lower, remove)), add);
  }

  /** A successful edit yields exactly the meant keys, each in one spelling: the first among
    the kept and then the added tags. It fails exactly if one of these is too long. */
  method EditTags(lower: Lower, current: seq<string>, clearAll: bool, remove: seq<string>, add: seq<string>)
    returns (r: Result<seq<string>, ()>)
    ensures
      var listed := Listed(lower, current, clearAll, remove, add);
      r.Err? <==> exists k :: 0 <= k < |listed| && |NormalizeTag(listed[k])| > 40
    ensures r.Ok? ==>
      && SpellsExactly(lower, r.value, EditedKeys(lower, current, clearAll, remove, add))
      && r.value == Normalized(lower, Listed(lower, current, clearAll, remove, add))
  {
    hide Key, Keys, Normalized, Without, SpellsExactly, EditedKeys;
    var tags := current;
    if clearAll {
      tags := [];
    }
    tags := RemoveTags(lower, tags, remove);
    r := NormalizeTags(lower, tags + add);
    NormalizedExactly(lower, tags + add);
    ListedKeys(lower, current, clearAll, remove, add);
  }

  /** A leading '#' makes the next normal form shorter. */
  lemma NormalizeShrinks(s: string)
    requires NormalizeTag(s) != "" && NormalizeTag(s)[0] == '#'
    ensures |NormalizeTag(NormalizeTag(s))| < |NormalizeTag(s)|
  {
    var ws := Words(TrimHashes(TrimSpace(s)));
    if ws != [] {
      JoinedIsTrimmed(ws);
    }
    JoinedFits(TrimHashes(Join(ws, " ")));
  }

  /** A stored tag answers to the key it was stored under exactly if it does not start with '#'. */
  lemma StoredKeyExactly(lower: Lower, tag: string)
    ensures Key(lower, NormalizeTag(tag)) == Key(lower, tag) <==> NormalizeTag(tag) == "" || NormalizeTag(tag)[0] != '#'
  {
    NormalizeTwiceExactly(tag);
    if NormalizeTag(tag) != "" && NormalizeTag(tag)[0] == '#' {
      NormalizeShrinks(tag);
    }
    hide NormalizeTag;
  }

  /** The spelling stored for a key of the list. */
  function StoredFor(lower: Lower, listed: seq<string>, key: string): string
    requires key in Keys(lower, listed)
  {
    NormalizeTag(FirstWith(lower, listed, key).value)
  }

  /** A key whose stored spelling starts with '#'. */
  predicate IsHashed(lower: Lower, listed: seq<string>, key: string) {
    && key in Keys(lower, listed) && key != ""
    && var stored := StoredFor(lower, listed, key); stored != "" && stored[0] == '#'
  }

  /** What is stored is the first spelling of each key. */
  lemma StoredExactly(lower: Lower, listed: seq<string>, stored: string)
    ensures stored in Normalized(lower, listed) <==>
      exists key :: key in Keys(lower, listed) && key != "" && StoredFor(lower, listed, key) == stored
  {
    hide Key, Keys, Normalized, NormalizeTag;
    var out := Normalized(lower, listed);
    NormalizedExactly(lower, listed);
    forall i | 0 <= i < |out|
      ensures
        var key := Spelled(lower, out)[i];
        key in Keys(lower, listed) && key != "" && StoredFor(lower, listed, key) == out[i]
    {
      FirstSpellingWins(lower, listed, i);
      assert Spelled(lower, out)[i] in Spelled(lower, out);
    }
    if stored in out {
      var i :| 0 <= i < |out| && out[i] == stored;
      assert StoredFor(lower, listed, Spelled(lower, out)[i]) == stored;
    }
    forall key | key in Keys(lower, listed) && key != "" ensures StoredFor(lower, listed, key) in out {
      assert key in Spelled(lower, out);
      var i :| 0 <= i < |Spelled(lower, out)| && Spelled(lower, out)[i] == key;
      assert out[i] == StoredFor(lower, listed, key);
    }
  }

  lemma StoredKeyOf(lower: Lower, listed: seq<string>, key: string)
    requires key in Keys(lower, listed) && key != ""
    ensures StoredFor(lower, listed, key) != ""
    ensures Key(lower, StoredFor(lower, listed, key)) == key <==> !IsHashed(lower, listed, key)
  {
    var first := FirstWith(lower, listed, key).value;
    StoredKeyExactly(lower, first);
    hide Key, Keys, NormalizeTag, FirstWith;
  }

  lemma KeysMembers(lower: Lower, tags: seq<string>, key: string)
    ensures key in Keys(lower, tags) <==> exists tag :: tag in tags && Key(lower, tag) == key
  {
    hide Key;
  }

  /** What was added is found again exactly if the first spelling of its key does not start with
    '#' when stored, or another one that does answers to its key by chance. */
  lemma AddedTagIsFoundExactly(lower: Lower, listed: seq<string>, tag: string)
    requires tag in listed && NormalizeTag(tag) != ""
    ensures Key(lower, tag) in Keys(lower, Normalized(lower, listed)) <==>
      || !IsHashed(lower, listed, Key(lower, tag))
      || exists other ::
        IsHashed(lower, listed, other) && Key(lower, StoredFor(lower, listed, other)) == Key(lower, tag)
  {
    var key, out := Key(lower, tag), Normalized(lower, listed);
    KeyOfMember(lower, listed, tag);
    KeysMembers(lower, out, key);
    hide Key, Keys, Normalized, NormalizeTag, FirstWith, StoredFor;
    if !IsHashed(lower, listed, key) {
      StoredKeyOf(lower, listed, key);
      StoredExactly(lower, listed, StoredFor(lower, listed, key));
    }
    forall other | IsHashed(lower, listed, other) ensures StoredFor(lower, listed, other) in out {
      StoredExactly(lower, listed, StoredFor(lower, listed, other));
    }
    forall stored | stored in out && Key(lower, stored) == key
      ensures !IsHashed(lower, listed, key) ||
        exists other :: IsHashed(lower, listed, other) && Key(lower, StoredFor(lower, listed, other)) == key
    {
      StoredExactly(lower, listed, stored);
      var other :| other in Keys(lower, listed) && other != "" && StoredFor(lower, listed, other) == stored;
      StoredKeyOf(lower, listed, other);
    }
  }

  lemma KeyOfMember(lower: Lower, tags: seq<string>, tag: string)
    requires tag in tags
    ensures Key(lower, tag) in Keys(lower, tags)
  {
    hide Key;
    var k :| 0 <= k < |tags| && tags[k] == tag;
  }

  /** It happens: "# #foo" is saved as "#foo", which answers to "foo". */
  lemma AddedTagIsNotFound(lower: Lower)
    ensures Normalized(lower, ["# #foo"]) == ["#foo"]
    ensures Key(lower, "# #foo") !in Keys(lower, Normalized(lower, ["# #foo"]))
  {
    HashHashFoo();
    HashFoo();
    NoKeys(lower);
    NormalizedOne(lower, "# #foo");
    KeysAppend(lower, [], "#foo");
    assert [] + ["#foo"] == ["#foo"];
    hide *;
    assert |"#foo"| == 4 && |"foo"| == 3;
  }

  lemma NormalizedOne(lower: Lower, tag: string)
    requires NormalizeTag(tag) != ""
    ensures Normalized(lower, [tag]) == [NormalizeTag(tag)]
  {
    hide NormalizeTag, Keys;
    assert [tag][..0] == [];
    NoKeys(lower);
  }

  lemma HashHashFoo()
    ensures NormalizeTag("# #foo") == "#foo"
  {
    assert "# #foo"[1..] == " " + "#foo";
    assert TrimHashes("# #foo") == " #foo";
    hide TrimSpace, TrimHashes;
    WordsOfWord("#foo");
    hide Words;
  }

  lemma HashFoo()
    ensures NormalizeTag("#foo") == "foo"
  {
    assert "#foo"[1..] == "foo";
    assert TrimHashes("#foo") == "foo";
    hide TrimSpace, TrimHashes;
    WordsOfWord("foo");
    hide Words;
  }

  // --- Counting ---------------------------------------------------------------------------

  datatype TagCount = TagCount(name: string, count: nat)

  function KeyOf(lower: Lower, c: TagCount): string {
    MapChars(lower, c.name)
  }

  /** The number of entries that carry the key. */
  function CountOf(lower: Lower, perEntry: seq<seq<string>>, key: string): nat {
    if perEntry == [] then 0 else
      var n := |perEntry| - 1;
      CountOf(lower, perEntry[..n], key) + if key in Keys(lower, perEntry[n]) then 1 else 0
  }

  function Flat(perEntry: seq<seq<string>>): seq<string> {
    if perEntry == [] then [] else Flat(perEntry[..|perEntry| - 1]) + perEntry[|perEntry| - 1]
  }

  /** A line for each key seen, under the position the index gives. */
  ghost predicate IsIndex(lower: Lower, index: map<string, nat>, out: seq<TagCount>) {
    && (forall key :: key in index ==> index[key] < |out| && KeyOf(lower, out[index[key]]) == key)
    && (forall i :: 0 <= i < |out| ==> KeyOf(lower, out[i]) in index && index[KeyOf(lower, out[i])] == i)
  }

  /** Each line counts the entries done, and the one under way if its key was met there. */
  ghost predicate AreCounts(lower: Lower, out: seq<TagCount>, done: seq<seq<string>>, counted: set<string>) {
    forall i :: 0 <= i < |out| ==>
      out[i].count == CountOf(lower, done, KeyOf(lower, out[i])) + if KeyOf(lower, out[i]) in counted then 1 else 0
  }

  /** The name is the first spelling of its key. */
  predicate IsFirstName(lower: Lower, flat: seq<string>, name: string) {
    var first := FirstWith(lower, flat, MapChars(lower, name));
    first.Some? && name == NormalizeTag(first.value)
  }

  ghost predicate AreFirstNames(lower: Lower, out: seq<TagCount>, flat: seq<string>) {
    forall i :: 0 <= i < |out| ==> IsFirstName(lower, flat, out[i].name)
  }

  lemma FirstStays(lower: Lower, tags: seq<string>, tag: string, key: string)
    ensures FirstWith(lower, tags + [tag], key) ==
      if FirstWith(lower, tags, key).Some? then FirstWith(lower, tags, key)
      else if Key(lower, tag) == key then Some(tag) else None
  {
    hide Key, Keys;
    assert (tags + [tag])[..|tags|] == tags;
  }

  lemma NamesStay(lower: Lower, out: seq<TagCount>, flat: seq<string>, tag: string)
    requires AreFirstNames(lower, out, flat)
    ensures AreFirstNames(lower, out, flat + [tag])
  {
    hide Key, Keys, NormalizeTag, FirstWith;
    forall i | 0 <= i < |out| ensures IsFirstName(lower, flat + [tag], out[i].name) {
      FirstStays(lower, flat, tag, MapChars(lower, out[i].name));
    }
  }

  lemma {:induction false} NeverCounted(lower: Lower, perEntry: seq<seq<string>>, key: string)
    ensures CountOf(lower, perEntry, key) == 0 <==> key !in Keys(lower, Flat(perEntry))
  {
    hide Keys;
    if perEntry == [] {
      NoKeys(lower);
    } else {
      var n := |perEntry| - 1;
      NeverCounted(lower, perEntry[..n], key);
      KeysConcat(lower, Flat(perEntry[..n]), perEntry[n]);
    }
  }

  /** What the loops keep: the entries done, and the tags met of the one under way. */
  ghost predicate IsCounting(
    lower: Lower, index: map<string, nat>, out: seq<TagCount>, done: seq<seq<string>>,
    met: seq<string>, counted: set<string>)
  {
    && IsIndex(lower, index, out)
    && index.Keys == Keys(lower, Flat(done) + met) - {""} && counted == Keys(lower, met) - {""}
    && AreCounts(lower, out, done, counted) && AreFirstNames(lower, out, Flat(done) + met)
  }

  lemma CountingStarts(lower: Lower)
    ensures IsCounting(lower, map[], [], [], [], {})
  {
    NoKeys(lower);
    assert Flat([]) + [] == [];
  }

  lemma CountingSkips(
    lower: Lower, index: map<string, nat>, out: seq<TagCount>, done: seq<seq<string>>,
    met: seq<string>, counted: set<string>, tag: string)
    requires IsCounting(lower, index, out, done, met, counted)
    requires Key(lower, tag) == "" || Key(lower, tag) in counted
    ensures IsCounting(lower, index, out, done, met + [tag], counted)
  {
    hide IsIndex, AreCounts, AreFirstNames, Keys, Key;
    Regroup(Flat(done), met, [tag]);
    KeysAppend(lower, met, tag);
    KeysAppend(lower, Flat(done) + met, tag);
    KeysConcat(lower, Flat(done), met);
    NamesStay(lower, out, Flat(done) + met, tag);
  }

  lemma CountingAgain(
    lower: Lower, index: map<string, nat>, out: seq<TagCount>, done: seq<seq<string>>,
    met: seq<string>, counted: set<string>, tag: string)
    requires IsCounting(lower, index, out, done, met, counted)
    requires Key(lower, tag) != "" && Key(lower, tag) !in counted && Key(lower, tag) in index
    ensures index[Key(lower, tag)] < |out|
    ensures IsCounting(
      lower, index, Bumped(out, index[Key(lower, tag)]), done, met + [tag], counted + {Key(lower, tag)})
  {
    hide IsIndex, AreCounts, AreFirstNames, Keys, Key, Flat, KeyOf, Bumped;
    var i := index[Key(lower, tag)];
    IndexGives(lower, index, out, Key(lower, tag));
    BumpKeepsIndex(lower, index, out, i);
    BumpCounts(lower, out, done, counted, i);
    NamesStay(lower, out, Flat(done) + met, tag);
    BumpKeepsNames(lower, out, Flat(done) + met + [tag], i);
    MetMore(lower, done, met, tag);
    Regroup(Flat(done), met, [tag]);
  }

  lemma IndexGives(lower: Lower, index: map<string, nat>, out: seq<TagCount>, key: string)
    requires IsIndex(lower, index, out) && key in index
    ensures index[key] < |out| && KeyOf(lower, out[index[key]]) == key
    ensures forall k :: 0 <= k < |out| && k != index[key] ==> KeyOf(lower, out[k]) != key
  {
    hide KeyOf;
  }

  function Bumped(out: seq<TagCount>, i: nat): seq<TagCount>
    requires i < |out|
  {
    out[i := out[i].(count := out[i].count + 1)]
  }

  lemma BumpKeepsIndex(lower: Lower, index: map<string, nat>, out: seq<TagCount>, i: nat)
    requires IsIndex(lower, index, out) && i < |out|
    ensures IsIndex(lower, index, Bumped(out, i))
  {
    assert forall k :: 0 <= k < |out| ==> KeyOf(lower, Bumped(out, i)[k]) == KeyOf(lower, out[k]);
    hide KeyOf;
  }

  lemma BumpCounts(lower: Lower, out: seq<TagCount>, done: seq<seq<string>>, counted: set<string>, i: nat)
    requires AreCounts(lower, out, done, counted) && i < |out| && KeyOf(lower, out[i]) !in counted
    requires forall k :: 0 <= k < |out| && k != i ==> KeyOf(lower, out[k]) != KeyOf(lower, out[i])
    ensures AreCounts(lower, Bumped(out, i), done, counted + {KeyOf(lower, out[i])})
  {
    assert forall k :: 0 <= k < |out| ==> KeyOf(lower, Bumped(out, i)[k]) == KeyOf(lower, out[k]);
    hide KeyOf, CountOf;
  }

  lemma BumpKeepsNames(lower: Lower, out: seq<TagCount>, flat: seq<string>, i: nat)
    requires AreFirstNames(lower, out, flat) && i < |out|
    ensures AreFirstNames(lower, Bumped(out, i), flat)
  {
    hide IsFirstName;
    assert forall k :: 0 <= k < |out| ==> Bumped(out, i)[k].name == out[k].name;
  }

  lemma MetMore(lower: Lower, done: seq<seq<string>>, met: seq<string>, tag: string)
    ensures Keys(lower, met + [tag]) - {""} == (Keys(lower, met) - {""}) + ({Key(lower, tag)} - {""})
    ensures Keys(lower, Flat(done) + (met + [tag])) - {""} ==
      (Keys(lower, Flat(done) + met) - {""}) + ({Key(lower, tag)} - {""})
  {
    hide Keys, Key;
    KeysAppend(lower, met, tag);
    Regroup(Flat(done), met, [tag]);
    KeysAppend(lower, Flat(done) + met, tag);
  }

  lemma CountingNew(
    lower: Lower, index: map<string, nat>, out: seq<TagCount>, done: seq<seq<string>>,
    met: seq<string>, counted: set<string>, tag: string)
    requires IsCounting(lower, index, out, done, met, counted)
    requires Key(lower, tag) != "" && Key(lower, tag) !in counted && Key(lower, tag) !in index
    ensures IsCounting(
      lower, index[Key(lower, tag) := |out|], out + [TagCount(NormalizeTag(tag), 1)], done, met + [tag],
                       counted + {Key(lower, tag)})
  {
    hide IsIndex, AreCounts, AreFirstNames, Keys, Flat, FirstWith, NormalizeTag, CountOf;
    var key, line := Key(lower, tag), TagCount(NormalizeTag(tag), 1);
    assert KeyOf(lower, line) == key;
    hide Key, KeyOf;
    KeysConcat(lower, Flat(done), met);
    NeverCounted(lower, done, key);
    NewKeepsIndex(lower, index, out, line);
    NewCounts(lower, index, out, done, counted, line);
    NamesStay(lower, out, Flat(done) + met, tag);
    FirstStays(lower, Flat(done) + met, tag, key);
    NewName(lower, out, Flat(done) + met + [tag], line);
    MetMore(lower, done, met, tag);
    Regroup(Flat(done), met, [tag]);
  }

  lemma NewKeepsIndex(lower: Lower, index: map<string, nat>, out: seq<TagCount>, line: TagCount)
    requires IsIndex(lower, index, out) && KeyOf(lower, line) !in index
    ensures IsIndex(lower, index[KeyOf(lower, line) := |out|], out + [line])
  {
    hide KeyOf;
  }

  lemma NewCounts(
    lower: Lower, index: map<string, nat>, out: seq<TagCount>, done: seq<seq<string>>,
    counted: set<string>, line: TagCount)
    requires AreCounts(lower, out, done, counted) && IsIndex(lower, index, out) && KeyOf(lower, line) !in index
    requires line.count == 1 && CountOf(lower, done, KeyOf(lower, line)) == 0
    ensures AreCounts(lower, out + [line], done, counted + {KeyOf(lower, line)})
  {
    hide KeyOf, CountOf;
  }

  lemma NewName(lower: Lower, out: seq<TagCount>, flat: seq<string>, line: TagCount)
    requires AreFirstNames(lower, out, flat)
    requires FirstWith(lower, flat, KeyOf(lower, line)).Some?
    requires line.name == NormalizeTag(FirstWith(lower, flat, KeyOf(lower, line)).value)
    ensures AreFirstNames(lower, out + [line], flat)
  {
    assert IsFirstName(lower, flat, line.name);
    hide IsFirstName;
  }

  lemma EntryDone(
    lower: Lower, index: map<string, nat>, out: seq<TagCount>, done: seq<seq<string>>,
    tags: seq<string>, counted: set<string>)
    requires IsCounting(lower, index, out, done, tags, counted)
    ensures IsCounting(lower, index, out, done + [tags], [], {})
  {
    NoKeys(lower);
    assert (done + [tags])[..|done|] == done;
    assert Flat(done + [tags]) + [] == Flat(done) + tags;
    assert "" !in index;
    hide Keys, IsFirstName, KeyOf, Flat;
  }

  // --- Sorting the lines --------------------------------------------------------------------

  function Insert(lower: Lower, c: TagCount, sorted: seq<TagCount>): (r: seq<TagCount>)
    ensures |r| == |sorted| + 1
  {
    if sorted == [] || Less(KeyOf(lower, c), KeyOf(lower, sorted[0])) then [c] + sorted
    else [sorted[0]] + Insert(lower, c, sorted[1..])
  }

  /** The lines by key. */
  function Sort(lower: Lower, lines: seq<TagCount>): (r: seq<TagCount>)
    ensures |r| == |lines|
  {
    if lines == [] then [] else Insert(lower, lines[0], Sort(lower, lines[1..]))
  }

  ghost predicate Increasing(lower: Lower, s: seq<TagCount>) {
    forall i, j :: 0 <= i < j < |s| ==> Less(KeyOf(lower, s[i]), KeyOf(lower, s[j]))
  }

  ghost predicate KeysDiffer(lower: Lower, s: seq<TagCount>) {
    forall i, j :: 0 <= i < j < |s| ==> KeyOf(lower, s[i]) != KeyOf(lower, s[j])
  }

  lemma {:induction false} InsertKeepsLines(lower: Lower, c: TagCount, s: seq<TagCount>)
    ensures forall x :: x in Insert(lower, c, s) <==> x == c || x in s
    ensures Increasing(lower, s) && (forall x :: x in s ==> KeyOf(lower, x) != KeyOf(lower, c)) ==>
      Increasing(lower, Insert(lower, c, s))
  {
    hide KeyOf, Less;
    if s != [] {
      InsertKeepsLines(lower, c, s[1..]);
      assert s == [s[0]] + s[1..];
      if Increasing(lower, s) && forall x :: x in s ==> KeyOf(lower, x) != KeyOf(lower, c) {
        LessIsStrictOrder(KeyOf(lower, c), KeyOf(lower, s[0]), KeyOf(lower, c));
        if Less(KeyOf(lower, c), KeyOf(lower, s[0])) {
          forall k | 0 < k < |s| ensures Less(KeyOf(lower, c), KeyOf(lower, s[k])) {
            LessIsStrictOrder(KeyOf(lower, c), KeyOf(lower, s[0]), KeyOf(lower, s[k]));
          }
        } else {
          var rest := Insert(lower, c, s[1..]);
          forall k | 0 <= k < |rest| ensures Less(KeyOf(lower, s[0]), KeyOf(lower, rest[k])) {
            assert rest[k] in rest;
          }
        }
      }
    }
  }

  lemma {:induction false} InsertPermutes(lower: Lower, c: TagCount, s: seq<TagCount>)
    ensures multiset(Insert(lower, c, s)) == multiset(s) + multiset{c}
  {
    hide KeyOf, Less;
    if s != [] {
      InsertPermutes(lower, c, s[1..]);
      assert s == [s[0]] + s[1..];
    }
  }

  /** Sorting only permutes the lines. */
  lemma {:induction false} SortPermutes(lower: Lower, lines: seq<TagCount>)
    ensures multiset(Sort(lower, lines)) == multiset(lines)
  {
    if lines != [] {
      SortPermutes(lower, lines[1..]);
      InsertPermutes(lower, lines[0], Sort(lower, lines[1..]));
      assert lines == [lines[0]] + lines[1..];
    }
  }

  /** Sorting keeps the lines and puts lines with different keys in order. */
  lemma {:induction false} SortKeepsLines(lower: Lower, lines: seq<TagCount>)
    ensures forall x :: x in Sort(lower, lines) <==> x in lines
    ensures KeysDiffer(lower, lines) ==> Increasing(lower, Sort(lower, lines))
  {
    hide KeyOf, Less;
    if lines != [] {
      SortKeepsLines(lower, lines[1..]);
      InsertKeepsLines(lower, lines[0], Sort(lower, lines[1..]));
      assert lines == [lines[0]] + lines[1..];
    }
  }

  /** The tag list of a vault: in order, each non-empty key once, in its first spelling, with
    the number of entries that carry it. */
  ghost predicate IsTagList(lower: Lower, perEntry: seq<seq<string>>, list: seq<TagCount>) {
    && Increasing(lower, list)
    && (forall i :: 0 <= i < |list| ==>
      list[i].count == CountOf(lower, perEntry, KeyOf(lower, list[i])) && list[i].count > 0 &&
      KeyOf(lower, list[i]) != "")
    && AreFirstNames(lower, list, Flat(perEntry))
    && (forall key :: key != "" && CountOf(lower, perEntry, key) > 0 ==>
      exists i :: 0 <= i < |list| && KeyOf(lower, list[i]) == key)
  }

  lemma CountingEnds(lower: Lower, index: map<string, nat>, out: seq<TagCount>, perEntry: seq<seq<string>>)
    requires IsCounting(lower, index, out, perEntry, [], {})
    ensures IsTagList(lower, perEntry, Sort(lower, out))
  {
    hide Sort, IsFirstName, Keys, KeyOf, CountOf, Flat, Increasing, KeysDiffer, AreFirstNames, IsCounting;
    var list := Sort(lower, out);
    SortKeepsLines(lower, out);
    CountedKeysDiffer(lower, index, out, perEntry);
    LinesInOrder(lower, index, out, perEntry, list);
    forall key | key != "" && CountOf(lower, perEntry, key) > 0
      ensures exists i :: 0 <= i < |list| && KeyOf(lower, list[i]) == key
    {
      KeyHasALine(lower, index, out, perEntry, list, key);
    }
  }

  lemma KeyHasALine(
    lower: Lower, index: map<string, nat>, out: seq<TagCount>, perEntry: seq<seq<string>>,
    list: seq<TagCount>, key: string)
    requires IsCounting(lower, index, out, perEntry, [], {}) && Flat(perEntry) + [] == Flat(perEntry)
    requires forall x :: x in list <==> x in out
    requires key != "" && CountOf(lower, perEntry, key) > 0
    ensures exists i :: 0 <= i < |list| && KeyOf(lower, list[i]) == key
  {
    hide Keys, KeyOf, CountOf, Flat, AreCounts, AreFirstNames;
    NeverCounted(lower, perEntry, key);
    assert out[index[key]] in list;
  }

  lemma CountedKeysDiffer(lower: Lower, index: map<string, nat>, out: seq<TagCount>, perEntry: seq<seq<string>>)
    requires IsCounting(lower, index, out, perEntry, [], {})
    ensures KeysDiffer(lower, out)
  {
    hide KeyOf, AreFirstNames, AreCounts, Keys;
  }

  lemma LinesInOrder(
    lower: Lower, index: map<string, nat>, out: seq<TagCount>, perEntry: seq<seq<string>>,
    list: seq<TagCount>)
    requires IsCounting(lower, index, out, perEntry, [], {}) && Flat(perEntry) + [] == Flat(perEntry)
    requires forall x :: x in list <==> x in out
    ensures AreFirstNames(lower, list, Flat(perEntry))
    ensures forall i :: 0 <= i < |list| ==>
      list[i].count == CountOf(lower, perEntry, KeyOf(lower, list[i])) && list[i].count > 0 &&
      KeyOf(lower, list[i]) != ""
  {
    hide IsFirstName, Keys, KeyOf, CountOf, Flat;
    forall i | 0 <= i < |list|
      ensures list[i].count == CountOf(lower, perEntry, KeyOf(lower, list[i])) && list[i].count > 0
      ensures KeyOf(lower, list[i]) != ""
      ensures IsFirstName(lower, Flat(perEntry), list[i].name)
    {
      assert list[i] in list;
      var k :| 0 <= k < |out| && out[k] == list[i];
      NeverCounted(lower, perEntry, KeyOf(lower, list[i]));
    }
  }

  method CountTags(lower: Lower, perEntry: seq<seq<string>>) returns (list: seq<TagCount>)
    ensures IsTagList(lower, perEntry, list)
  {
    hide Key, Keys, NormalizeTag, IsCounting;
    var index: map<string, nat>, out: seq<TagCount> := map[], [];
    CountingStarts(lower);
    for e := 0 to |perEntry|
      invariant IsCounting(lower, index, out, perEntry[..e], [], {})
    {
      var tags, counted := perEntry[e], {};
      for j := 0 to |tags|
        invariant IsCounting(lower, index, out, perEntry[..e], tags[..j], counted)
      {
        var tag := tags[j];
        var key := Key(lower, tag);
        assert tags[..j + 1] == tags[..j] + [tag];
        if key == "" || key in counted {
          CountingSkips(lower, index, out, perEntry[..e], tags[..j], counted, tag);
          continue;
        }
        if key in index {
          CountingAgain(lower, index, out, perEntry[..e], tags[..j], counted, tag);
          counted := counted + {key};
          out := out[index[key] := out[index[key]].(count := out[index[key]].count + 1)];
          continue;
        }
        CountingNew(lower, index, out, perEntry[..e], tags[..j], counted, tag);
        counted := counted + {key};
        index := index[key := |out|];
        out := out + [TagCount(NormalizeTag(tag), 1)];
      }
      assert tags[..|tags|] == tags && perEntry[..e + 1] == perEntry[..e] + [tags];
      EntryDone(lower, index, out, perEntry[..e], tags, counted);
    }
    assert perEntry[..|perEntry|] == perEntry;
    CountingEnds(lower, index, out, perEntry);
    list := Sort(lower, out);
  }
}
