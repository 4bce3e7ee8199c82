/**
  When two stored TOTP secrets are one secret, spelled differently in case, grouping or padding.
  upper is the upper-case mapping.
  */
module TotpSecret {
  import opened Prelude

  predicate IsSeparator(c: char) {
    c == ' ' || c == '-' || c == '_'
  }

  function WithoutSeparators(s: string): string {
    if s == "" then "" else (if IsSeparator(s[0]) then "" else [s[0]]) + WithoutSeparators(s[1..])
  }

  function WithoutPadding(s: string): string {
    if s != "" && s[|s| - 1] == '=' then WithoutPadding(s[..|s| - 1]) else s
  }

  /** One spelling of a secret. */
  function CleanSecret(upper: char -> char, s: string): string {
    MapChars(upper, WithoutSeparators(TrimSpace(s)))
  }

  predicate SameSecret(upper: char -> char, a: string, b: string) {
    WithoutPadding(CleanSecret(upper, a)) == WithoutPadding(CleanSecret(upper, b))
  }

  lemma SameSecretAsItself(upper: char -> char, s: string)
    ensures SameSecret(upper, s, s)
  {
  }

  lemma TrimmedStays(s: string)
    requires s != "" ==> !IsSpace(s[0]) && !IsSpace(s[|s| - 1])
    ensures TrimSpace(s) == s
  {
    hide IsSpace;
  }

  lemma {:induction false} WithoutSeparatorsSum(a: string, b: string)
    ensures WithoutSeparators(a + b) == WithoutSeparators(a) + WithoutSeparators(b)
  {
    hide IsSeparator;
    if a == "" {
      assert a + b == b;
    } else {
      WithoutSeparatorsSum(a[1..], b);
      SumParts(a, b);
    }
  }

  lemma SumParts(a: string, b: string)
    requires a != ""
    ensures (a + b)[0] == a[0] && (a + b)[1..] == a[1..] + b
  {
  }

  lemma OneSeparator(c: char)
    ensures WithoutSeparators([c]) == if c == ' ' || c == '-' || c == '_' then "" else [c]
  {
    assert [c][1..] == "";
  }

  /** A secret copied in groups is the same secret. */
  lemma GroupingIsIgnored(upper: char -> char, a: string, b: string, c: char)
    requires a != "" && b != "" && !IsSpace(a[0]) && !IsSpace(b[|b| - 1]) && (c == ' ' || c == '-' || c == '_')
    ensures SameSecret(upper, a + [c] + b, a + b)
  {
    hide WithoutSeparators, TrimSpace, WithoutPadding, IsSpace, IsSeparator;
    TrimmedStays(a + [c] + b);
    TrimmedStays(a + b);
    WithoutSeparatorsSum(a + [c], b);
    WithoutSeparatorsSum(a, [c]);
    WithoutSeparatorsSum(a, b);
    OneSeparator(c);
    assert WithoutSeparators(a) + "" == WithoutSeparators(a);
  }

  /** So is one with padding. */
  lemma PaddingIsIgnored(upper: char -> char, s: string)
    requires s != "" && !IsSpace(s[0]) && !IsSpace(s[|s| - 1]) && upper('=') == '='
    ensures SameSecret(upper, s + "=", s)
  {
    assert !IsSpace('=');
    hide WithoutSeparators, TrimSpace, IsSpace, IsSeparator;
    TrimmedStays(s + "=");
    TrimmedStays(s);
    WithoutSeparatorsSum(s, "=");
    OneSeparator('=');
    var clean := CleanSecret(upper, s);
    assert CleanSecret(upper, s + "=") == clean + "=";
    hide CleanSecret, TrimSpace;
    PaddingGoes(clean);
  }

  lemma PaddingGoes(s: string)
    ensures WithoutPadding(s + "=") == WithoutPadding(s)
  {
    assert (s + "=")[..|s|] == s;
  }

  lemma {:induction false} UpperWithoutSeparators(upper: char -> char, s: string)
    requires forall c :: IsSeparator(c) <==> IsSeparator(upper(c))
    ensures WithoutSeparators(MapChars(upper, s)) == MapChars(upper, WithoutSeparators(s))
  {
    hide IsSeparator;
    if s != "" {
      UpperWithoutSeparators(upper, s[1..]);
      assert MapChars(upper, s)[1..] == MapChars(upper, s[1..]);
    }
  }

  lemma {:induction false} UpperTrimStart(upper: char -> char, s: string)
    requires forall c :: IsSpace(c) <==> IsSpace(upper(c))
    ensures TrimStart(MapChars(upper, s)) == MapChars(upper, TrimStart(s))
  {
    hide IsSpace;
    if s != "" {
      UpperTrimStart(upper, s[1..]);
      assert MapChars(upper, s)[1..] == MapChars(upper, s[1..]);
    }
  }

  lemma {:induction false} UpperTrimEnd(upper: char -> char, s: string)
    requires forall c :: IsSpace(c) <==> IsSpace(upper(c))
    ensures TrimEnd(MapChars(upper, s)) == MapChars(upper, TrimEnd(s))
  {
    hide IsSpace;
    if s != "" {
      UpperTrimEnd(upper, s[..|s| - 1]);
      assert MapChars(upper, s)[..|s| - 1] == MapChars(upper, s[..|s| - 1]);
    }
  }

  /** So is one in another case. */
  lemma CaseIsIgnored(upper: char -> char, s: string)
    requires forall c :: upper(upper(c)) == upper(c)
    requires forall c :: IsSpace(c) <==> IsSpace(upper(c))
    requires forall c :: IsSeparator(c) <==> IsSeparator(upper(c))
    ensures SameSecret(upper, MapChars(upper, s), s)
  {
    UpperTrimStart(upper, s);
    UpperTrimEnd(upper, TrimStart(s));
    UpperWithoutSeparators(upper, TrimSpace(s));
    hide WithoutSeparators, TrimStart, TrimEnd, WithoutPadding, IsSpace, IsSeparator;
    var plain := WithoutSeparators(TrimSpace(s));
    assert MapChars(upper, MapChars(upper, plain)) == MapChars(upper, plain);
  }

  lemma {:induction false} NoSeparators(s: string)
    requires forall c :: c in s ==> !IsSeparator(c)
    ensures WithoutSeparators(s) == s
  {
    hide IsSeparator;
    if s != "" {
      assert s[0] in s;
      NoSeparators(s[1..]);
      assert s == [s[0]] + s[1..];
    }
  }

  /** No grouping, no padding. */
  predicate IsBare(upper: char -> char, s: string) {
    forall c :: c in s ==> !IsSeparator(c) && !IsSpace(c) && upper(c) != '='
  }

  lemma BareIsClean(upper: char -> char, s: string)
    requires IsBare(upper, s)
    ensures WithoutPadding(CleanSecret(upper, s)) == MapChars(upper, s)
  {
    NoSeparators(s);
    if s != "" {
      assert s[0] in s && s[|s| - 1] in s;
    }
    TrimmedStays(s);
    hide WithoutSeparators, TrimSpace, IsSpace, IsSeparator;
  }

  /** And secrets that differ in more than that are not the same. */
  lemma BareSecretsExactly(upper: char -> char, a: string, b: string)
    requires IsBare(upper, a) && IsBare(upper, b)
    ensures SameSecret(upper, a, b) <==> MapChars(upper, a) == MapChars(upper, b)
  {
    BareIsClean(upper, a);
    BareIsClean(upper, b);
    hide CleanSecret, WithoutPadding, IsBare;
  }
}
