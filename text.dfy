/** The string operations of JavaScript that the catalog relies on:
    `trim`, `startsWith`, `includes`, `split` on one character,
    `toLowerCase` (ASCII) and number-to-decimal-string conversion. */
module Text {

  /** White space and line terminators as `String.prototype.trim` removes them. */
  predicate IsSpace(c: char) {
    c == ' ' || c == '\t' || c == '\n' || c == '\r' || c == '\U{000B}' || c == '\U{000C}' ||
    c == '\U{00A0}' || c == '\U{1680}' || ('\U{2000}' <= c <= '\U{200A}') ||
    c == '\U{2028}' || c == '\U{2029}' || c == '\U{202F}' || c == '\U{205F}' ||
    c == '\U{3000}' || c == '\U{FEFF}'
  }

  function TrimStart(s: string): (r: string)
    ensures |r| <= |s|
  {
    if s != [] && IsSpace(s[0]) then TrimStart(s[1..]) else s
  }

  function TrimEnd(s: string): (r: string)
    ensures |r| <= |s|
  {
    if s != [] && IsSpace(s[|s| - 1]) then TrimEnd(s[..|s| - 1]) else s
  }

  /** `String.prototype.trim`. Its properties are stated as lemmas below, so
      that the many places that only pass a trimmed string on do not pay for them. */
  function Trim(s: string): (r: string)
    ensures |r| <= |s|
  {
    TrimEnd(TrimStart(s))
  }

  lemma {:induction false} TrimStartFacts(s: string)
    ensures var r := TrimStart(s);
            && r == s[|s| - |r|..]
            && (r == [] || !IsSpace(r[0]))
            && (forall k :: 0 <= k < |s| - |r| ==> IsSpace(s[k]))
  {
    if s != [] && IsSpace(s[0]) {
      TrimStartFacts(s[1..]);
    }
  }

  lemma {:induction false} TrimEndFacts(s: string)
    ensures var r := TrimEnd(s);
            && r == s[..|r|]
            && (r == [] || !IsSpace(r[|r| - 1]))
            && (forall k :: |r| <= k < |s| ==> IsSpace(s[k]))
  {
    if s != [] && IsSpace(s[|s| - 1]) {
      TrimEndFacts(s[..|s| - 1]);
    }
  }

  /** Where `Trim(s)` starts inside `s`. */
  function TrimOffset(s: string): nat {
    |s| - |TrimStart(s)|
  }

  /** `Trim(s)` is the part of `s` between a run of leading and a run of
      trailing white space, and neither of its ends is white space. */
  lemma TrimFacts(s: string)
    ensures TrimOffset(s) + |Trim(s)| <= |s|
    ensures Trim(s) == s[TrimOffset(s)..TrimOffset(s) + |Trim(s)|]
    ensures Trim(s) == [] || (!IsSpace(Trim(s)[0]) && !IsSpace(Trim(s)[|Trim(s)| - 1]))
    ensures forall k :: 0 <= k < TrimOffset(s) ==> IsSpace(s[k])
    ensures forall k :: TrimOffset(s) + |Trim(s)| <= k < |s| ==> IsSpace(s[k])
  {
    var t := TrimStart(s);
    TrimStartFacts(s);
    TrimEndFacts(t);
    assert Trim(s) == t[..|Trim(s)|];
    forall k | TrimOffset(s) + |Trim(s)| <= k < |s|
      ensures IsSpace(s[k])
    {
      assert s[k] == t[k - TrimOffset(s)];
    }
  }

  /** A string is trimmed to nothing exactly when every character is white space. */
  lemma TrimEmpty(s: string)
    ensures Trim(s) == [] <==> forall k :: 0 <= k < |s| ==> IsSpace(s[k])
  {
    TrimFacts(s);
    if Trim(s) != [] {
      assert !IsSpace(s[TrimOffset(s)]);
    }
  }

  lemma TrimIdempotent(s: string)
    ensures Trim(Trim(s)) == Trim(s)
  {
    TrimFacts(s);
    var r := Trim(s);
    if r != [] {
      assert TrimStart(r) == r;
      assert TrimEnd(r) == r;
    }
  }

  /** A string with a non-space character is not trimmed to nothing. */
  lemma TrimNonEmpty(s: string, k: nat)
    requires k < |s| && !IsSpace(s[k])
    ensures Trim(s) != []
  {
    TrimEmpty(s);
  }

  /** A string with non-space ends is its own trim. */
  lemma TrimKeeps(s: string)
    requires s != [] && !IsSpace(s[0]) && !IsSpace(s[|s| - 1])
    ensures Trim(s) == s
  {
    TrimFacts(s);
    TrimNonEmpty(s, 0);
  }

  lemma TrimQuoteFree(s: string, c: char)
    requires c !in s
    ensures c !in Trim(s)
  {
    TrimFacts(s);
    assert forall k :: 0 <= k < |Trim(s)| ==> Trim(s)[k] == s[TrimOffset(s) + k];
  }

  /** `xs.map(x => x.trim())`. */
  function MapTrim(xs: seq<string>): (r: seq<string>)
    ensures |r| == |xs|
    ensures forall i :: 0 <= i < |xs| ==> r[i] == Trim(xs[i])
  {
    seq(|xs|, i requires 0 <= i < |xs| => Trim(xs[i]))
  }

  /** `String.prototype.length`: the number of UTF-16 code units, in which a
      character outside the Basic Multilingual Plane takes two. */
  function Utf16Length(s: string): (n: nat)
    ensures |s| <= n <= 2 * |s|
    ensures (forall i :: 0 <= i < |s| ==> s[i] as int <= 0xFFFF) ==> n == |s|
    decreases |s|
  {
    if s == [] then 0
    else
      assert forall i :: 0 <= i < |s| - 1 ==> s[..|s| - 1][i] == s[i];
      Utf16Length(s[..|s| - 1]) + (if s[|s| - 1] as int > 0xFFFF then 2 else 1)
  }

  predicate StartsWith(s: string, prefix: string) {
    |prefix| <= |s| && s[..|prefix|] == prefix
  }

  /** A string does not start with a prefix whose first character differs. */
  lemma NotStartsWithFirst(s: string, prefix: string)
    requires s != [] && prefix != [] && s[0] != prefix[0]
    ensures !StartsWith(s, prefix)
  {
    if |prefix| <= |s| {
      assert s[..|prefix|][0] == s[0];
    }
  }

  /** `String.prototype.includes`. */
  predicate Contains(s: string, sub: string)
    decreases |s|
  {
    StartsWith(s, sub) || (s != [] && Contains(s[1..], sub))
  }

  lemma {:induction false} ContainsAt(s: string, sub: string, i: nat)
    requires i + |sub| <= |s| && s[i..i + |sub|] == sub
    ensures Contains(s, sub)
  {
    if i > 0 {
      ContainsAt(s[1..], sub, i - 1);
      assert s[1..][i - 1..i - 1 + |sub|] == s[i..i + |sub|];
    }
  }

  /** A string does not contain anything longer than itself. */
  lemma {:induction false} NotContainsLonger(s: string, sub: string)
    requires |s| < |sub|
    ensures !Contains(s, sub)
    decreases |s|
  {
    if s != [] {
      NotContainsLonger(s[1..], sub);
    }
  }

  lemma {:induction false} ContainsSelf(s: string)
    ensures Contains(s, s)
  {
    ContainsAt(s, s, 0);
  }

  function LowerChar(c: char): char {
    if 'A' <= c <= 'Z' then (c as int + 32) as char else c
  }

  /** `String.prototype.toLowerCase`, restricted to the ASCII letters. */
  function ToLower(s: string): (r: string)
    ensures |r| == |s|
    ensures forall i :: 0 <= i < |s| ==> r[i] == LowerChar(s[i])
  {
    seq(|s|, i requires 0 <= i < |s| => LowerChar(s[i]))
  }

  /** `s.split(sep)` for a one-character separator. */
  function Split(s: string, sep: char): (r: seq<string>)
    ensures |r| >= 1
    ensures forall k :: 0 <= k < |r| ==> sep !in r[k]
  {
    if s == [] then [""]
    else
      var rest := Split(s[1..], sep);
      if s[0] == sep then [""] + rest else [[s[0]] + rest[0]] + rest[1..]
  }

  /** `split` yields a single piece exactly when the separator does not occur. */
  lemma {:induction false} SplitSingle(s: string, sep: char)
    ensures |Split(s, sep)| == 1 <==> sep !in s
  {
    if s != [] {
      SplitSingle(s[1..], sep);
      assert s == [s[0]] + s[1..];
    }
  }

  /** The last piece of a split ends with the last character of the input,
      unless that character is the separator. */
  lemma {:induction false} SplitLastPiece(s: string, sep: char)
    requires s != [] && s[|s| - 1] != sep
    ensures var r := Split(s, sep); r[|r| - 1] != [] && r[|r| - 1][|r[|r| - 1]| - 1] == s[|s| - 1]
  {
    if |s| > 1 {
      SplitLastPiece(s[1..], sep);
    }
  }

  function Digit(d: nat): char
    requires d < 10
  {
    "0123456789"[d]
  }

  /** The decimal digits of a natural number, as `String(n)` writes them. */
  function NatToString(n: nat): (r: string)
    ensures r != []
    ensures forall i :: 0 <= i < |r| ==> '0' <= r[i] <= '9'
  {
    if n < 10 then [Digit(n)] else NatToString(n / 10) + [Digit(n % 10)]
  }

  function IntToString(i: int): (r: string)
    ensures r != []
  {
    if i < 0 then "-" + NatToString(-i) else NatToString(i)
  }
}
