/**
  The strong password generator: which characters each enabled class offers, when a
  set of options can be served at all, and what the password looks like.
  */
module Generator {
  import opened Prelude
  import opened Shuffle

  const LOWERCASE_CHARS := "abcdefghijklmnopqrstuvwxyz"
  const UPPERCASE_CHARS := "ABCDEFGHIJKLMNOPQRSTUVWXYZ"
  const DIGIT_CHARS := "0123456789"
  const AMBIGUOUS_CHARS := "0Oo1lI|"

  datatype Options = Options(
    length: int,
    lowercase: bool, uppercase: bool, digits: bool, symbols: bool,
    symbolSet: string,
    excludeChars: string, noAmbiguous: bool)

  datatype Class = Class(name: string, enabled: bool, chars: string)

  datatype GeneratorError = NoClasses | EmptyClass(name: string) | TooShort | ReaderFailed

  // --- Symbol sets ------------------------------------------------------------

  predicate Usable(c: char) {
    !IsSpace(c) && !IsControl(c)
  }

  /** The usable characters of a symbol set, each where it occurs first. */
  function Cleaned(symbolSet: string): (r: string) {
    if symbolSet == "" then "" else
      var n := |symbolSet| - 1;
      var r := Cleaned(symbolSet[..n]);
      if Usable(symbolSet[n]) && symbolSet[n] !in r then r + [symbolSet[n]] else r
  }

  method CleanSymbolSet(symbolSet: string) returns (r: string)
    ensures r == Cleaned(symbolSet)
  {
    r := "";
    var seen: set<char> := {};
    for i := 0 to |symbolSet|
      invariant r == Cleaned(symbolSet[..i])
      invariant forall c :: c in seen <==> c in r
    {
      assert symbolSet[..i + 1][..i] == symbolSet[..i];
      if !(IsSpace(symbolSet[i]) || IsControl(symbolSet[i]) || symbolSet[i] in seen) {
        seen := seen + {symbolSet[i]};
        r := r + [symbolSet[i]];
      }
    }
    assert symbolSet[..|symbolSet|] == symbolSet;
  }

  /** A cleaned set has every usable character once, in the order of first occurrence,
    and cleaning it again changes nothing. */
  lemma {:induction false} CleanedKeepsFirstOccurrences(symbolSet: string)
    ensures IsDistinct(Cleaned(symbolSet))
    ensures forall c :: c in Cleaned(symbolSet) <==> c in symbolSet && Usable(c)
    ensures forall i, j :: 0 <= i < j < |Cleaned(symbolSet)| ==>
      FirstIndex(symbolSet, Cleaned(symbolSet)[i]) < FirstIndex(symbolSet, Cleaned(symbolSet)[j])
  {
    if symbolSet != "" {
      var n := |symbolSet| - 1;
      var front := Cleaned(symbolSet[..n]);
      CleanedKeepsFirstOccurrences(symbolSet[..n]);
      assert symbolSet == symbolSet[..n] + [symbolSet[n]];
      forall k | 0 <= k < |front| ensures FirstIndex(symbolSet, front[k]) == FirstIndex(symbolSet[..n], front[k]) < n {
        assert front[k] in front;
      }
    }
  }

  function FirstIndex(s: string, c: char): (i: nat)
    ensures i <= |s| && (i < |s| ==> s[i] == c) && (c in s ==> i < |s|)
    ensures forall k :: 0 <= k < i ==> s[k] != c
  {
    if s == "" || s[0] == c then 0 else 1 + FirstIndex(s[1..], c)
  }

  // --- Character classes --------------------------------------------------------

  function AllClasses(o: Options): (all: seq<Class>)
    ensures |all| == 4
  {
    [ Class("lowercase", o.lowercase, LOWERCASE_CHARS),
      Class("uppercase", o.uppercase, UPPERCASE_CHARS),
      Class("digits", o.digits, DIGIT_CHARS),
      Class("symbols", o.symbols, Cleaned(o.symbolSet)) ]
  }

  function Removed(o: Options): string {
    o.excludeChars + if o.noAmbiguous then AMBIGUOUS_CHARS else ""
  }

  /** The characters of a class that are not removed, in order. */
  function Kept(chars: string, removed: string): (r: string) {
    if chars == "" then "" else
      var n := |chars| - 1;
      Kept(chars[..n], removed) + if chars[n] in removed then "" else [chars[n]]
  }

  lemma {:induction false} KeptMembers(chars: string, removed: string, c: char)
    ensures c in Kept(chars, removed) <==> c in chars && c !in removed
  {
    if chars != "" {
      var n := |chars| - 1;
      KeptMembers(chars[..n], removed, c);
      assert chars == chars[..n] + [chars[n]];
    }
  }

  /** The enabled ones of the given classes after filtering; the first that has no
    character left is an error. */
  function Filtered(all: seq<Class>, removed: string): Result<seq<string>, GeneratorError> {
    if all == [] then Ok([]) else
      var n := |all| - 1;
      var front := Filtered(all[..n], removed);
      if front.Err? || !all[n].enabled then front
      else if Kept(all[n].chars, removed) == "" then Err(EmptyClass(all[n].name))
      else Ok(front.value + [Kept(all[n].chars, removed)])
  }

  function ClassesOf(o: Options): Result<seq<string>, GeneratorError> {
    var r := Filtered(AllClasses(o), Removed(o));
    if r.Err? then r
    else if r.value == [] then Err(NoClasses)
    else if o.length < |r.value| then Err(TooShort)
    else r
  }

  lemma FilteredNext(all: seq<Class>, removed: string, i: nat)
    requires i < |all|
    ensures Filtered(all[..i + 1], removed) ==
      var front, chars := Filtered(all[..i], removed), Kept(all[i].chars, removed);
      if front.Err? || !all[i].enabled then front
      else if chars == "" then Err(EmptyClass(all[i].name)) else Ok(front.value + [chars])
  {
    assert all[..i + 1][..i] == all[..i];
  }

  method Classes(o: Options) returns (r: Result<seq<string>, GeneratorError>)
    ensures r == ClassesOf(o)
  {
    var symbols := CleanSymbolSet(o.symbolSet);
    var all := [
      Class("lowercase", o.lowercase, LOWERCASE_CHARS),
      Class("uppercase", o.uppercase, UPPERCASE_CHARS),
      Class("digits", o.digits, DIGIT_CHARS),
      Class("symbols", o.symbols, symbols) ];
    var removed := o.excludeChars;
    if o.noAmbiguous {
      removed := removed + AMBIGUOUS_CHARS;
    }
    assert removed == Removed(o) && all == AllClasses(o);
    assert Filtered(all[..0], removed) == Ok([]);
    hide AllClasses, Removed, Cleaned, Kept, Filtered;
    var out: seq<string> := [];
    for i := 0 to |all|
      invariant Filtered(all[..i], removed) == Ok(out)
    {
      FilteredNext(all, removed, i);
      if !all[i].enabled {
        continue;
      }
      var chars := KeepChars(all[i].chars, removed);
      if chars == "" {
        FilteredStaysBroken(all, removed, i + 1);
        return Err(EmptyClass(all[i].name));
      }
      out := out + [chars];
    }
    assert all[..|all|] == all;
    if out == [] {
      return Err(NoClasses);
    }
    if o.length < |out| {
      return Err(TooShort);
    }
    r := Ok(out);
  }

  lemma {:induction false} FilteredStaysBroken(all: seq<Class>, removed: string, n: nat)
    requires n <= |all| && Filtered(all[..n], removed).Err?
    ensures Filtered(all, removed) == Filtered(all[..n], removed)
  {
    if n == |all| {
      assert all[..n] == all;
    } else {
      assert all[..|all| - 1][..n] == all[..n];
      FilteredStaysBroken(all[..|all| - 1], removed, n);
    }
  }

  method KeepChars(chars: string, removed: string) returns (r: string)
    ensures r == Kept(chars, removed)
  {
    r := "";
    for i := 0 to |chars|
      invariant r == Kept(chars[..i], removed)
    {
      assert chars[..i + 1][..i] == chars[..i];
      if chars[i] !in removed {
        r := r + [chars[i]];
      }
    }
    assert chars[..|chars|] == chars;
  }

  // --- Validation ---------------------------------------------------------------

  /** A class the user asked for that still offers a character. */
  ghost predicate Offers(c: Class, removed: string) {
    exists ch :: ch in c.chars && ch !in removed
  }

  ghost function EnabledCount(all: seq<Class>): nat {
    if all == [] then 0 else EnabledCount(all[..|all| - 1]) + if all[|all| - 1].enabled then 1 else 0
  }

  lemma {:induction false} FilteredExactly(all: seq<Class>, removed: string)
    ensures Filtered(all, removed).Ok? <==>
      forall k :: 0 <= k < |all| && all[k].enabled ==> Offers(all[k], removed)
    ensures Filtered(all, removed).Ok? ==> |Filtered(all, removed).value| == EnabledCount(all)
  {
    if all != [] {
      var n := |all| - 1;
      FilteredExactly(all[..n], removed);
      forall ch | true ensures ch in Kept(all[n].chars, removed) <==> ch in all[n].chars && ch !in removed {
        KeptMembers(all[n].chars, removed, ch);
      }
      if Kept(all[n].chars, removed) != "" {
        assert Kept(all[n].chars, removed)[0] in Kept(all[n].chars, removed);
      }
      assert forall k :: 0 <= k < n ==> all[..n][k] == all[k];
    }
  }

  /** Validate accepts exactly when some class is enabled, each enabled class has a
    character left and there is room for one of each. */
  lemma ValidOptionsExactly(o: Options)
    ensures ClassesOf(o).Ok? <==>
      && (o.lowercase || o.uppercase || o.digits || o.symbols)
      && (forall k :: 0 <= k < 4 && AllClasses(o)[k].enabled ==> Offers(AllClasses(o)[k], Removed(o)))
      && o.length >= EnabledCount(AllClasses(o))
  {
    FilteredExactly(AllClasses(o), Removed(o));
    EnabledCountExactly(o);
  }

  method Validate(o: Options) returns (error: Option<GeneratorError>)
    ensures error.None? <==> ClassesOf(o).Ok?
    ensures error.Some? ==> ClassesOf(o) == Err(error.value)
  {
    var r := Classes(o);
    error := if r.Ok? then None else Some(r.error);
  }

  /** What a class holds: some of the characters of an enabled class, none removed. */
  lemma {:induction false} FilteredMembers(all: seq<Class>, removed: string, i: nat, c: char)
    requires Filtered(all, removed).Ok? && i < |Filtered(all, removed).value|
    requires c in Filtered(all, removed).value[i]
    ensures c !in removed && exists k :: 0 <= k < |all| && all[k].enabled && c in all[k].chars
  {
    var n := |all| - 1;
    var front := Filtered(all[..n], removed).value;
    if i < |front| {
      FilteredMembers(all[..n], removed, i, c);
      var k :| 0 <= k < n && all[..n][k].enabled && c in all[..n][k].chars;
      assert all[k].enabled && c in all[k].chars;
    } else {
      KeptMembers(all[n].chars, removed, c);
    }
  }

  // --- The fill alphabet --------------------------------------------------------

  /** acc and the characters of more it does not have yet. */
  function AddNew(acc: string, more: string): (r: string) {
    if more == "" then acc else
      var n := |more| - 1;
      var r := AddNew(acc, more[..n]);
      if more[n] in r then r else r + [more[n]]
  }

  function Union(classes: seq<string>): (r: string) {
    if classes == [] then "" else
      var n := |classes| - 1;
      AddNew(Union(classes[..n]), classes[n])
  }

  lemma {:induction false} AddNewMembers(acc: string, more: string)
    requires IsDistinct(acc)
    ensures IsDistinct(AddNew(acc, more))
    ensures forall c :: c in AddNew(acc, more) <==> c in acc || c in more
  {
    if more != "" {
      var n := |more| - 1;
      AddNewMembers(acc, more[..n]);
      assert more == more[..n] + [more[n]];
    }
  }

  /** The fill alphabet lists each character of the classes once, so that a uniform
    index is a uniform character. */
  lemma {:induction false} UnionMembers(classes: seq<string>)
    ensures IsDistinct(Union(classes))
    ensures forall c :: c in Union(classes) <==> exists k :: 0 <= k < |classes| && c in classes[k]
  {
    if classes != [] {
      var n := |classes| - 1;
      UnionMembers(classes[..n]);
      AddNewMembers(Union(classes[..n]), classes[n]);
      forall c | true ensures c in Union(classes) <==> exists k :: 0 <= k < |classes| && c in classes[k] {
        if c in Union(classes[..n]) {
          var k :| 0 <= k < n && c in classes[..n][k];
          assert c in classes[k];
        }
        if k :| 0 <= k < n && c in classes[k] {
          assert c in classes[..n][k];
        }
      }
    }
  }

  // --- The password -------------------------------------------------------------

  /** The bounds of the random calls: one a class, the fill, then the shuffle. */
  ghost function DrawBounds(classes: seq<string>, length: nat): (b: seq<nat>)
    requires |classes| <= length
    ensures |b| == length && forall k :: 0 <= k < length ==>
      b[k] == if k < |classes| then |classes[k]| else |Union(classes)|
  {
    seq(length, k requires 0 <= k < length => if k < |classes| then |classes[k]| else |Union(classes)|)
  }

  /** The source can serve every call of a run. */
  ghost predicate Works(answers: seq<nat>, classes: seq<string>, length: nat) {
    && |classes| <= length
    && Serves(answers, DrawBounds(classes, length))
    && Serves(answers[length..], ShuffleBounds(length))
  }

  /** What is drawn before the shuffle. */
  ghost function Drawn(answers: seq<nat>, classes: seq<string>, length: nat): (r: string)
    requires |classes| <= length && Serves(answers, DrawBounds(classes, length))
    ensures |r| == length
  {
    seq(length, k requires 0 <= k < length =>
      assert answers[k] < DrawBounds(classes, length)[k];
      if k < |classes| then classes[k][answers[k]] else Union(classes)[answers[k]])
  }

  ghost function StrongPassword(answers: seq<nat>, classes: seq<string>, length: nat): (r: string)
    requires Works(answers, classes, length)
    ensures |r| == length
  {
    Shuffled(Drawn(answers, classes, length), ChoicesFrom(answers[length..], length))
  }

  /** Whatever the source answers: the password has the length asked for, only offered
    characters, none excluded, and one of every enabled class even after the shuffle. */
  lemma StrongPasswordCovers(o: Options, answers: seq<nat>)
    requires ClassesOf(o).Ok? && Works(answers, ClassesOf(o).value, o.length)
    ensures var r, classes := StrongPassword(answers, ClassesOf(o).value, o.length), ClassesOf(o).value;
      && |r| == o.length
      && (forall i :: 0 <= i < |classes| ==> exists c :: c in r && c in classes[i])
      && (forall c :: c in r ==>
        c !in Removed(o) && exists k :: 0 <= k < 4 && AllClasses(o)[k].enabled && c in AllClasses(o)[k].chars)
  {
    var classes := ClassesOf(o).value;
    var drawn := Drawn(answers, classes, o.length);
    var js := ChoicesFrom(answers[o.length..], o.length);
    var r := StrongPassword(answers, classes, o.length);
    forall i | 0 <= i < |classes| ensures exists c :: c in r && c in classes[i] {
      assert answers[i] < DrawBounds(classes, o.length)[i];
      ShuffledKeepsElements(drawn, js, drawn[i]);
      assert drawn[i] in r && drawn[i] in classes[i];
    }
    forall c | c in r
      ensures c !in Removed(o) && exists k :: 0 <= k < 4 && AllClasses(o)[k].enabled && c in AllClasses(o)[k].chars
    {
      ShuffledKeepsElements(drawn, js, c);
      var i := DrawnFromClass(answers, classes, o.length, c);
      FilteredMembers(AllClasses(o), Removed(o), i, c);
    }
  }

  /** A character the user excluded, or that looks like another one when those are excluded. */
  predicate IsExcluded(o: Options, c: char) {
    c in o.excludeChars || (o.noAmbiguous && c in "0Oo1lI|")
  }

  /** The length asked for, no excluded character, only characters of the classes that were asked
    for, and one of each. */
  ghost predicate Honours(o: Options, r: string) {
    && |r| == o.length
    && (forall c :: c in r ==> !IsExcluded(o, c) && IsOffered(o, c))
    && (o.lowercase ==> exists c :: c in r && 'a' <= c <= 'z')
    && (o.uppercase ==> exists c :: c in r && 'A' <= c <= 'Z')
    && (o.digits ==> exists c :: c in r && '0' <= c <= '9')
    && (o.symbols ==> exists c :: c in r && c in o.symbolSet)
  }

  /** Whatever is drawn honours the options. */
  lemma PasswordHonoursOptions(o: Options, answers: seq<nat>)
    requires ClassesOf(o).Ok? && Works(answers, ClassesOf(o).value, o.length)
    ensures Honours(o, StrongPassword(answers, ClassesOf(o).value, o.length))
  {
    StrongPasswordCovers(o, answers);
    var r, classes := StrongPassword(answers, ClassesOf(o).value, o.length), ClassesOf(o).value;
    hide *;
    EachOffered(o, r);
    forall k | 0 <= k < 4 && AllClasses(o)[k].enabled ensures exists c :: c in r && c in AllClasses(o)[k].chars {
      var i := ClassOf(o, k);
      var c :| c in r && c in classes[i];
    }
    EachCovered(o, r);
    HonoursParts(o, r);
  }

  lemma HonoursParts(o: Options, r: string)
    requires |r| == o.length && forall c :: c in r ==> IsOffered(o, c) && c !in Removed(o)
    requires forall k :: 0 <= k < 4 && IsEnabled(o, k) ==> exists c :: c in r && IsOfClass(o, k, c)
    ensures Honours(o, r)
  {
    RemovedExactly(o);
    hide Removed, IsExcluded, IsOffered, IsSpace, IsControl;
    assert IsEnabled(o, 0) == o.lowercase && IsEnabled(o, 1) == o.uppercase;
    assert IsEnabled(o, 2) == o.digits && IsEnabled(o, 3) == o.symbols;
  }

  predicate IsEnabled(o: Options, k: nat) {
    if k == 0 then o.lowercase else if k == 1 then o.uppercase else if k == 2 then o.digits else o.symbols
  }

  lemma EnabledExactly(o: Options)
    ensures forall k :: 0 <= k < 4 ==> (AllClasses(o)[k].enabled <==> IsEnabled(o, k))
  {
  }

  lemma EachOffered(o: Options, r: string)
    requires forall c :: c in r ==> exists k :: 0 <= k < 4 && AllClasses(o)[k].enabled && c in AllClasses(o)[k].chars
    ensures forall c :: c in r ==> IsOffered(o, c)
  {
    EnabledExactly(o);
    hide IsSpace, IsControl, AllClasses;
    forall c | c in r ensures IsOffered(o, c) {
      var k :| 0 <= k < 4 && AllClasses(o)[k].enabled && c in AllClasses(o)[k].chars;
      ClassOffers(o, k, c);
    }
  }

  lemma EachCovered(o: Options, r: string)
    requires forall k :: 0 <= k < 4 && AllClasses(o)[k].enabled ==> exists c :: c in r && c in AllClasses(o)[k].chars
    ensures forall k :: 0 <= k < 4 && IsEnabled(o, k) ==> exists c :: c in r && IsOfClass(o, k, c)
  {
    EnabledExactly(o);
    hide AllClasses, IsOfClass, IsEnabled;
    forall k | 0 <= k < 4 && IsEnabled(o, k) ensures exists c :: c in r && IsOfClass(o, k, c) {
      var c :| c in r && c in AllClasses(o)[k].chars;
      ClassOffers(o, k, c);
    }
  }

  /** Each enabled class has its characters among the classes to draw from. */
  lemma {:induction false} ClassAt(all: seq<Class>, removed: string, k: nat) returns (i: nat)
    requires Filtered(all, removed).Ok? && k < |all| && all[k].enabled
    ensures i < |Filtered(all, removed).value|
    ensures forall c :: c in Filtered(all, removed).value[i] <==> c in all[k].chars && c !in removed
  {
    var n := |all| - 1;
    if k < n {
      i := ClassAt(all[..n], removed, k);
    } else {
      i := |Filtered(all[..n], removed).value|;
      forall c ensures c in Filtered(all, removed).value[i] <==> c in all[k].chars && c !in removed {
        KeptMembers(all[k].chars, removed, c);
      }
    }
  }

  lemma ClassOf(o: Options, k: nat) returns (i: nat)
    requires ClassesOf(o).Ok? && k < 4 && AllClasses(o)[k].enabled
    ensures i < |ClassesOf(o).value|
    ensures forall c :: c in ClassesOf(o).value[i] <==> c in AllClasses(o)[k].chars && c !in Removed(o)
  {
    i := ClassAt(AllClasses(o), Removed(o), k);
  }

  lemma RemovedExactly(o: Options)
    ensures forall c :: c in Removed(o) <==> IsExcluded(o, c)
  {
  }

  predicate IsOffered(o: Options, c: char) {
    || (o.lowercase && 'a' <= c <= 'z') || (o.uppercase && 'A' <= c <= 'Z') || (o.digits && '0' <= c <= '9')
    || (o.symbols && c in o.symbolSet && !IsSpace(c) && !IsControl(c))
  }

  predicate IsOfClass(o: Options, k: nat, c: char) {
    if k == 0 then 'a' <= c <= 'z' else if k == 1 then 'A' <= c <= 'Z' else if k == 2 then '0' <= c <= '9'
    else c in o.symbolSet && !IsSpace(c) && !IsControl(c)
  }

  lemma ClassOffers(o: Options, k: nat, c: char)
    requires k < 4
    ensures c in AllClasses(o)[k].chars <==> IsOfClass(o, k, c)
  {
    CleanedKeepsFirstOccurrences(o.symbolSet);
    LettersOfClasses();
    hide Cleaned, IsSpace, IsControl;
  }

  lemma LettersOfClasses()
    ensures forall c :: c in LOWERCASE_CHARS <==> 'a' <= c <= 'z'
    ensures forall c :: c in UPPERCASE_CHARS <==> 'A' <= c <= 'Z'
    ensures forall c :: c in DIGIT_CHARS <==> '0' <= c <= '9'
  {
    AreConsecutive(LOWERCASE_CHARS, 'a');
    AreConsecutive(UPPERCASE_CHARS, 'A');
    AreConsecutive(DIGIT_CHARS, '0');
  }

  lemma AreConsecutive(s: string, first: char)
    requires s != "" && forall k :: 0 <= k < |s| ==> s[k] as int == first as int + k
    ensures forall c :: c in s <==> first <= c <= s[|s| - 1]
  {
    forall c | first <= c <= s[|s| - 1] ensures c in s {
      assert s[c as int - first as int] == c;
    }
  }

  /** Which error: an enabled class without a character left comes first, then no class at all,
    then a length that does not cover one of each. */
  lemma ErrorsExactly(o: Options)
    ensures
      var all, removed, r := AllClasses(o), Removed(o), ClassesOf(o);
      var isEmpty := exists k :: 0 <= k < 4 && all[k].enabled && !Offers(all[k], removed);
      var enabled := (if o.lowercase then 1 else 0) + (if o.uppercase then 1 else 0)
                   + (if o.digits then 1 else 0) + (if o.symbols then 1 else 0);
      && (r.Err? && r.error.EmptyClass? <==> isEmpty)
      && (r == Err(NoClasses) <==> !(o.lowercase || o.uppercase || o.digits || o.symbols))
      && (r == Err(TooShort) <==> !isEmpty && 0 < enabled && o.length < enabled)
  {
    FilteredExactly(AllClasses(o), Removed(o));
    FilteredFails(AllClasses(o), Removed(o));
    EnabledCountExactly(o);
    EnabledExactly(o);
    hide Filtered, AllClasses, Removed, EnabledCount, Offers;
  }

  lemma {:induction false} FilteredFails(all: seq<Class>, removed: string)
    ensures Filtered(all, removed).Err? ==> Filtered(all, removed).error.EmptyClass?
  {
    if all != [] {
      FilteredFails(all[..|all| - 1], removed);
    }
  }

  lemma EnabledCountExactly(o: Options)
    ensures EnabledCount(AllClasses(o)) == (if o.lowercase then 1 else 0) + (if o.uppercase then 1 else 0)
                                         + (if o.digits then 1 else 0) + (if o.symbols then 1 else 0)
  {
    var all := AllClasses(o);
    forall k | 0 <= k < 4
      ensures EnabledCount(all[..k + 1]) == EnabledCount(all[..k]) + if all[k].enabled then 1 else 0
    {
      assert all[..k + 1][..k] == all[..k];
    }
    assert EnabledCount(all[..0]) == 0 && all[..4] == all;
    assert EnabledCount(all) == (if all[0].enabled then 1 else 0) + (if all[1].enabled then 1 else 0)
      + (if all[2].enabled then 1 else 0) + (if all[3].enabled then 1 else 0);
  }

  /** Accepted options leave no call without choices: a working source exists, and every
    prefix of the draws can be extended. */
  lemma AcceptedOptionsCanBeServed(o: Options)
    requires ClassesOf(o).Ok?
    ensures forall k :: 0 <= k < o.length ==> DrawBounds(ClassesOf(o).value, o.length)[k] > 0
    ensures exists answers :: Works(answers, ClassesOf(o).value, o.length)
  {
    var classes, length := ClassesOf(o).value, o.length;
    FilteredNonEmpty(AllClasses(o), Removed(o));
    UnionMembers(classes);
    assert classes[0][0] in Union(classes);
    var answers := seq(2 * length, _ => 0);
    assert Works(answers, classes, length);
  }

  /** Some answers of the source put c in the password. */
  ghost predicate CanBeDrawn(o: Options, c: char) {
    && ClassesOf(o).Ok?
    && exists answers ::
        Works(answers, ClassesOf(o).value, o.length) &&
        c in StrongPassword(answers, ClassesOf(o).value, o.length)
  }

  /** The characters that can come up are exactly those of the classes asked for, but for the
    excluded ones. */
  lemma DrawableExactly(o: Options, c: char)
    requires ClassesOf(o).Ok?
    ensures CanBeDrawn(o, c) <==> IsOffered(o, c) && !IsExcluded(o, c)
  {
    if CanBeDrawn(o, c) {
      var answers :|
        Works(answers, ClassesOf(o).value, o.length) && c in StrongPassword(answers, ClassesOf(o).value, o.length);
      PasswordHonoursOptions(o, answers);
    } else if IsOffered(o, c) && !IsExcluded(o, c) {
      var k := OfferingClass(o, c);
      var i := ClassOf(o, k);
      RemovedExactly(o);
      hide AllClasses, Removed, IsOffered, IsExcluded;
      var answers := AnswersFor(o, i, c);
    }
    hide *;
  }

  lemma OfferingClass(o: Options, c: char) returns (k: nat)
    requires IsOffered(o, c)
    ensures k < 4 && AllClasses(o)[k].enabled && c in AllClasses(o)[k].chars
  {
    EnabledExactly(o);
    k := if o.lowercase && IsOfClass(o, 0, c) then 0 else if o.uppercase && IsOfClass(o, 1, c) then 1
         else if o.digits && IsOfClass(o, 2, c) then 2 else 3;
    ClassOffers(o, k, c);
    hide AllClasses, IsSpace, IsControl;
  }

  lemma AnswersFor(o: Options, i: nat, c: char) returns (answers: seq<nat>)
    requires ClassesOf(o).Ok? && i < |ClassesOf(o).value| && c in ClassesOf(o).value[i]
    ensures Works(answers, ClassesOf(o).value, o.length)
    ensures c in StrongPassword(answers, ClassesOf(o).value, o.length)
  {
    var classes, length := ClassesOf(o).value, o.length;
    FilteredNonEmpty(AllClasses(o), Removed(o));
    UnionMembers(classes);
    assert classes[0][0] in Union(classes);
    var j :| 0 <= j < |classes[i]| && classes[i][j] == c;
    answers := seq(2 * length, k => if k == i then j else 0);
    assert Works(answers, classes, length);
    assert Drawn(answers, classes, length)[i] == c;
    ShuffledKeepsElements(Drawn(answers, classes, length), ChoicesFrom(answers[length..], length), c);
  }

  lemma {:induction false} FilteredNonEmpty(all: seq<Class>, removed: string)
    requires Filtered(all, removed).Ok?
    ensures forall k :: 0 <= k < |Filtered(all, removed).value| ==> Filtered(all, removed).value[k] != ""
  {
    if all != [] {
      FilteredNonEmpty(all[..|all| - 1], removed);
    }
  }

  lemma DrawnFromClass(answers: seq<nat>, classes: seq<string>, length: nat, c: char) returns (i: nat)
    requires |classes| <= length && Serves(answers, DrawBounds(classes, length))
    requires c in Drawn(answers, classes, length)
    ensures i < |classes| && c in classes[i]
  {
    var k :| 0 <= k < length && Drawn(answers, classes, length)[k] == c;
    assert answers[k] < DrawBounds(classes, length)[k];
    UnionMembers(classes);
    if k < |classes| {
      i := k;
    } else {
      assert c in Union(classes);
      i :| 0 <= i < |classes| && c in classes[i];
    }
  }

  /** The first calls went well and gave these characters. */
  ghost predicate DrawnSoFar(answers: seq<nat>, classes: seq<string>, length: nat, password: string)
    requires |classes| <= length
  {
    && |password| <= length && |password| <= |answers|
    && forall k :: 0 <= k < |password| ==> var letters := if k < |classes| then classes[k] else Union(classes);
        answers[k] < |letters| && password[k] == letters[answers[k]]
  }

  lemma DrawnToTheEnd(answers: seq<nat>, classes: seq<string>, length: nat, password: string)
    requires |classes| <= length && DrawnSoFar(answers, classes, length, password)
    ensures |password| == length ==>
      Serves(answers, DrawBounds(classes, length)) && password == Drawn(answers, classes, length)
    ensures |password| < length && Works(answers, classes, length) ==>
      var letters := if |password| < |classes| then classes[|password|] else Union(classes);
      |password| < |answers| && answers[|password|] < |letters|
  {
    var b := DrawBounds(classes, length);
    assert forall k :: 0 <= k < |password| ==> answers[k] < b[k];
    if |password| < length && Works(answers, classes, length) {
      assert answers[|password|] < b[|password|];
    }
  }

  method ExtendUnion(union: string, class_: string) returns (r: string)
    ensures r == AddNew(union, class_)
  {
    r := union;
    for i := 0 to |class_|
      invariant r == AddNew(union, class_[..i])
    {
      assert class_[..i + 1][..i] == class_[..i];
      if class_[i] !in r {
        r := r + [class_[i]];
      }
    }
    assert class_[..|class_|] == class_;
  }

  /** One character of every class, then the fill. */
  method Draw(classes: seq<string>, length: nat, source: RandomSource) returns (ok: bool, password: string)
    requires |classes| <= length
    modifies source
    ensures !ok ==> !Works(old(source.answers), classes, length)
    ensures ok ==> Serves(old(source.answers), DrawBounds(classes, length))
    ensures ok ==> password == Drawn(old(source.answers), classes, length)
    ensures ok ==> source.answers == old(source.answers)[length..]
  {
    hide Serves, DrawBounds, ShuffleBounds, Drawn, AddNew, Works;
    ghost var answers := source.answers;
    ok, password := true, "";
    var union := "";
    assert classes[..0] == [];
    for i := 0 to |classes|
      invariant |password| == i && DrawnSoFar(answers, classes, length, password)
      invariant source.answers == answers[i..]
      invariant union == Union(classes[..i])
    {
      DrawnToTheEnd(answers, classes, length, password);
      var served, index := source.RandomIndex(|classes[i]|);
      if !served {
        return false, password;
      }
      password := password + [classes[i][index]];
      union := ExtendUnion(union, classes[i]);
      assert classes[..i + 1][..i] == classes[..i];
    }
    assert classes[..|classes|] == classes;

    while |password| < length
      invariant |classes| <= |password| && DrawnSoFar(answers, classes, length, password)
      invariant source.answers == answers[|password|..]
    {
      DrawnToTheEnd(answers, classes, length, password);
      var served, index := source.RandomIndex(|union|);
      if !served {
        return false, password;
      }
      password := password + [union[index]];
    }
    DrawnToTheEnd(answers, classes, length, password);
  }

  /** Fails with the error of the options, or when the reader fails, and only then. */
  method GenerateStrong(o: Options, source: RandomSource) returns (r: Result<string, GeneratorError>)
    modifies source
    ensures ClassesOf(o).Err? ==> r == Err(ClassesOf(o).error)
    ensures ClassesOf(o).Ok? && !Works(old(source.answers), ClassesOf(o).value, o.length) ==> r == Err(ReaderFailed)
    ensures ClassesOf(o).Ok? && Works(old(source.answers), ClassesOf(o).value, o.length) ==>
      r == Ok(StrongPassword(old(source.answers), ClassesOf(o).value, o.length))
  {
    hide Filtered, Serves, DrawBounds, ShuffleBounds, Drawn, ChoicesFrom, Shuffled;
    var classified := Classes(o);
    if classified.Err? {
      return Err(classified.error);
    }
    var drawn, password := Draw(classified.value, o.length, source);
    if !drawn {
      return Err(ReaderFailed);
    }
    var runes := new char[|password|](k requires 0 <= k < |password| => password[k]);
    assert runes[..] == password;
    var ok := ShuffleRunes(runes, source);
    r := if ok then Ok(runes[..]) else Err(ReaderFailed);
  }
}
