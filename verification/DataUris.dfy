/**
  The data URIs files are exported as: how one is taken apart again, and which contents are
  base64.
  */
module DataUris {
  import opened Prelude

  // --- Base64 data URIs -----------------------------------------------------------------

  const DATA := "data:"
  const BASE64 := ";base64,"

  /** The first occurrence of sep in s. */
  function IndexOf(s: string, sep: string): (i: Option<nat>)
    ensures i.Some? ==> i.value + |sep| <= |s| && s[i.value..i.value + |sep|] == sep
  {
    if |s| < |sep| then None
    else if s[..|sep|] == sep then Some(0)
    else match IndexOf(s[1..], sep) case None => None case Some(i) => Some(i + 1)
  }

  predicate IsBase64Char(c: char) {
    'A' <= c <= 'Z' || 'a' <= c <= 'z' || '0' <= c <= '9' || c == '+' || c == '/'
  }

  function WithoutNewlines(s: string): string {
    if s == "" then "" else
      var n := |s| - 1;
      WithoutNewlines(s[..n]) + if s[n] == '\r' || s[n] == '\n' then "" else [s[n]]
  }

  function Unpadded(s: string): string {
    if |s| >= 2 && s[|s| - 2..] == "==" then s[..|s| - 2]
    else if |s| >= 1 && s[|s| - 1] == '=' then s[..|s| - 1]
    else s
  }

  /** What base64.StdEncoding decodes: line breaks are skipped, the padding is required. */
  predicate IsBase64(s: string) {
    var t := WithoutNewlines(s);
    |t| % 4 == 0 && forall c :: c in Unpadded(t) ==> IsBase64Char(c)
  }

  datatype DataUri = DataUri(mime: string, content: string)

  function SplitDataUri(value: string): Option<DataUri> {
    if !(DATA <= value) then None
    else
      var rest := value[|DATA|..];
      match IndexOf(rest, BASE64)
      case None => None
      case Some(i) =>
        if IsBase64(rest[i + |BASE64|..]) then Some(DataUri(rest[..i], rest[i + |BASE64|..])) else None
  }

  /** Nothing of the separator starts before it: it holds its first character once. */
  lemma {:induction false} IndexOfAppended(s: string, tail: string)
    ensures IndexOf(s, BASE64).None? ==> IndexOf(s + BASE64 + tail, BASE64) == Some(|s|)
    ensures IndexOf(s, BASE64).Some? ==> IndexOf(s + BASE64 + tail, BASE64) == IndexOf(s, BASE64)
  {
    var whole := s + BASE64 + tail;
    if s == "" {
      assert whole[..|BASE64|] == BASE64;
    } else {
      if |s| < |BASE64| {
        NoEarlyStart(s, tail);
      } else {
        assert s[..|BASE64|] == whole[..|BASE64|];
      }
      IndexOfAppended(s[1..], tail);
      assert whole[1..] == s[1..] + BASE64 + tail;
    }
  }

  lemma NoEarlyStart(s: string, tail: string)
    requires 0 < |s| < |BASE64|
    ensures (s + BASE64 + tail)[..|BASE64|] != BASE64
  {
    var whole := s + BASE64 + tail;
    assert whole[..|BASE64|][|s|] == whole[|s|] == ';';
    assert BASE64[|s|] != ';';
  }

  /** A file comes back from its data URI exactly if its content is base64 and its MIME type
    does not hold the separator. */
  lemma DataUriExactly(mime: string, content: string)
    ensures SplitDataUri(DATA + mime + BASE64 + content) == Some(DataUri(mime, content)) <==>
      IsBase64(content) && IndexOf(mime, BASE64).None?
  {
    hide IsBase64;
    var value, rest := DATA + mime + BASE64 + content, mime + BASE64 + content;
    IndexOfAppended(mime, content);
    Regroup(DATA, mime, BASE64 + content);
    Regroup(DATA + mime, BASE64, content);
    Regroup(mime, BASE64, content);
    assert SplitDataUri(value) == match IndexOf(rest, BASE64)
      case None => None
      case Some(i) => if IsBase64(rest[i + |BASE64|..]) then Some(DataUri(rest[..i], rest[i + |BASE64|..])) else None;
    hide SplitDataUri, IndexOf;
    if IndexOf(mime, BASE64).Some? {
      assert |rest[..IndexOf(mime, BASE64).value]| < |mime|;
    }
  }

  // --- What the clients write is base64 -------------------------------------------------

  /** The character for six bits. */
  function SixBits(n: nat): char
    requires n < 64
  {
    if n < 26 then ('A' as int + n) as char
    else if n < 52 then ('a' as int + n - 26) as char
    else if n < 62 then ('0' as int + n - 52) as char
    else if n == 62 then '+' else '/'
  }

  /** Three bytes. */
  function Quad(a: nat, b: nat, c: nat): string
    requires a < 256 && b < 256 && c < 256
  {
    [SixBits(a / 4), SixBits(a % 4 * 16 + b / 16), SixBits(b % 16 * 4 + c / 64), SixBits(c % 64)]
  }

  predicate AreBytes(bytes: seq<nat>) {
    forall k :: 0 <= k < |bytes| ==> bytes[k] < 256
  }

  /** The last one to three bytes, padded. */
  function LastQuad(bytes: seq<nat>): string
    requires AreBytes(bytes) && 1 <= |bytes| <= 3
  {
    if |bytes| == 1 then Quad(bytes[0], 0, 0)[..2] + "=="
    else if |bytes| == 2 then Quad(bytes[0], bytes[1], 0)[..3] + "="
    else Quad(bytes[0], bytes[1], bytes[2])
  }

  /** Standard base64 with padding. */
  function Base64(bytes: seq<nat>): string
    requires AreBytes(bytes)
  {
    if bytes == [] then "" else if |bytes| <= 3 then LastQuad(bytes)
    else Quad(bytes[0], bytes[1], bytes[2]) + Base64(bytes[3..])
  }

  predicate IsCode(s: string) {
    forall c :: c in s ==> IsBase64Char(c)
  }

  lemma QuadIsCode(a: nat, b: nat, c: nat)
    requires a < 256 && b < 256 && c < 256
    ensures |Quad(a, b, c)| == 4 && IsCode(Quad(a, b, c))
    ensures IsCode(Quad(a, b, c)[..3]) && IsCode(Quad(a, b, c)[..2])
    ensures forall k :: 0 <= k < 4 ==> Quad(a, b, c)[k] !in {'=', '\r', '\n'}
  {
  }

  lemma UnpaddedCode(code: string)
    requires code != "" && code[|code| - 1] != '='
    ensures Unpadded(code) == code && Unpadded(code + "=") == code && Unpadded(code + "==") == code
  {
    var n := |code|;
    if n >= 2 {
      assert code[n - 2..][1] != '=';
    }
    assert (code + "=")[n - 1..][0] != '=' && (code + "=")[..n] == code;
    assert (code + "==")[n..] == "==" && (code + "==")[..n] == code;
  }

  lemma UnpaddedRest(code: string, rest: string)
    requires |rest| >= 4
    ensures Unpadded(code + rest) == code + Unpadded(rest)
  {
    var s, n := code + rest, |code + rest|;
    assert s[n - 2..] == rest[|rest| - 2..] && s[n - 1] == rest[|rest| - 1];
    assert s[..n - 2] == code + rest[..|rest| - 2] && s[..n - 1] == code + rest[..|rest| - 1];
  }

  lemma CodeSum(a: string, b: string)
    requires IsCode(a) && IsCode(b)
    ensures IsCode(a + b)
  {
  }

  predicate IsShaped(s: string) {
    |s| % 4 == 0 && s != "" && IsCode(Unpadded(s)) && '\r' !in s && '\n' !in s
  }

  lemma LastIsShaped(bytes: seq<nat>)
    requires AreBytes(bytes) && 1 <= |bytes| <= 3
    ensures IsShaped(LastQuad(bytes))
  {
    hide Quad, Unpadded, IsBase64Char, IsCode;
    if |bytes| == 1 {
      QuadIsCode(bytes[0], 0, 0);
      UnpaddedCode(Quad(bytes[0], 0, 0)[..2]);
    } else if |bytes| == 2 {
      QuadIsCode(bytes[0], bytes[1], 0);
      UnpaddedCode(Quad(bytes[0], bytes[1], 0)[..3]);
    } else {
      QuadIsCode(bytes[0], bytes[1], bytes[2]);
      UnpaddedCode(Quad(bytes[0], bytes[1], bytes[2]));
    }
  }

  lemma QuadAndMore(quad: string, rest: string)
    requires |quad| == 4 && IsCode(quad) && '\r' !in quad && '\n' !in quad && IsShaped(rest)
    ensures IsShaped(quad + rest)
  {
    UnpaddedRest(quad, rest);
    CodeSum(quad, Unpadded(rest));
    hide Unpadded, IsCode;
  }

  lemma {:induction false} Base64Shape(bytes: seq<nat>)
    requires AreBytes(bytes) && bytes != []
    ensures IsShaped(Base64(bytes))
  {
    hide Quad, LastQuad, IsShaped, IsCode;
    if |bytes| <= 3 {
      LastIsShaped(bytes);
    } else {
      QuadIsCode(bytes[0], bytes[1], bytes[2]);
      Base64Shape(bytes[3..]);
      QuadAndMore(Quad(bytes[0], bytes[1], bytes[2]), Base64(bytes[3..]));
    }
  }

  lemma {:induction false} NoNewlines(s: string)
    requires '\r' !in s && '\n' !in s
    ensures WithoutNewlines(s) == s
  {
    if s != "" {
      var n := |s| - 1;
      NoNewlines(s[..n]);
      assert s == s[..n] + [s[n]];
    }
  }

  /** Every content the clients write is taken for base64, so a file with it survives. */
  lemma Base64IsBase64(bytes: seq<nat>)
    requires AreBytes(bytes)
    ensures IsBase64(Base64(bytes))
  {
    if bytes != [] {
      Base64Shape(bytes);
      NoNewlines(Base64(bytes));
    }
    hide Base64;
  }

  lemma {:induction false} NewlineDropsOut(s: string, tail: string, c: char)
    requires c == '\r' || c == '\n'
    ensures WithoutNewlines(s + [c] + tail) == WithoutNewlines(s + tail)
  {
    var n := |tail| - 1;
    if tail == "" {
      assert s + [c] + tail == s + [c] && s + tail == s;
    } else {
      NewlineDropsOut(s, tail[..n], c);
      assert (s + [c] + tail)[..|s| + |tail|] == s + [c] + tail[..n];
      assert (s + tail)[..|s| + n] == s + tail[..n];
    }
  }

  /** Line breaks may stand anywhere in a content. */
  lemma NewlinesAreIgnored(s: string, tail: string, c: char)
    requires c == '\r' || c == '\n'
    ensures IsBase64(s + [c] + tail) <==> IsBase64(s + tail)
  {
    NewlineDropsOut(s, tail, c);
  }

  /** What is not: another character, or newlines aside a length that is no multiple of four. */
  lemma NotBase64(s: string, k: nat)
    requires '\r' !in s && '\n' !in s
    requires |s| % 4 != 0 || (k + 2 < |s| &&
      !('A' <= s[k] <= 'Z' || 'a' <= s[k] <= 'z' || '0' <= s[k] <= '9' || s[k] == '+' || s[k] == '/'))
    ensures !IsBase64(s)
  {
    NoNewlines(s);
    if |s| % 4 == 0 {
      assert Unpadded(s)[k] == s[k] && s[k] in Unpadded(s);
    }
  }
}
