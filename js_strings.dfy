/**
 * The JavaScript string built-ins the site relies on (`trim`, `toLowerCase`,
 * `split`, `startsWith`, `includes`, `indexOf`), on ASCII text.
 * Whitespace is the ASCII part of the class JavaScript calls `\s`.
 */
module JsStrings {

  /** ASCII whitespace: space, tab, line feed, vertical tab, form feed, carriage return. */
  predicate IsSpace(c: char) {
    c == ' ' || c == '\t' || c == '\n' || c == '\U{000B}' || c == '\U{000C}' || c == '\r'
  }

  predicate NoSpace(s: string) {
    forall k :: 0 <= k < |s| ==> !IsSpace(s[k])
  }

  /** Drops leading whitespace. */
  function TrimStart(s: string): string {
    if |s| > 0 && IsSpace(s[0]) then TrimStart(s[1..]) else s
  }

  /** Drops trailing whitespace. */
  function TrimEnd(s: string): string {
    if |s| > 0 && IsSpace(s[|s| - 1]) then TrimEnd(s[..|s| - 1]) else s
  }

  /** `String.prototype.trim`. */
  function Trim(s: string): string {
    TrimEnd(TrimStart(s))
  }

  /** A string without whitespace is its own trim. */
  lemma TrimNoSpace(s: string)
    requires NoSpace(s)
    ensures Trim(s) == s
  {
    assert TrimStart(s) == s;
    assert TrimEnd(s) == s;
  }

  /** Trimming never lengthens a string. */
  lemma TrimShorter(s: string)
    ensures |Trim(s)| <= |s|
  {
    TrimStartShorter(s);
    TrimEndShorter(TrimStart(s));
  }

  lemma {:induction false} TrimStartShorter(s: string)
    ensures |TrimStart(s)| <= |s|
    decreases |s|
  {
    if |s| > 0 && IsSpace(s[0]) {
      TrimStartShorter(s[1..]);
    }
  }

  lemma {:induction false} TrimEndShorter(s: string)
    ensures |TrimEnd(s)| <= |s|
    decreases |s|
  {
    if |s| > 0 && IsSpace(s[|s| - 1]) {
      TrimEndShorter(s[..|s| - 1]);
    }
  }

  /** A string of whitespace only trims to the empty string. */
  lemma {:induction false} TrimAllSpace(s: string)
    requires forall k :: 0 <= k < |s| ==> IsSpace(s[k])
    ensures TrimStart(s) == [] && Trim(s) == []
    decreases |s|
  {
    if |s| > 0 {
      TrimAllSpace(s[1..]);
    }
  }

  /** A trimmed string neither starts nor ends with whitespace. */
  lemma TrimIsTrimmed(s: string)
    ensures Trim(s) != [] ==> !IsSpace(Trim(s)[0]) && !IsSpace(Trim(s)[|Trim(s)| - 1])
  {
    TrimStartNoSpace(s);
    TrimEndIsPrefix(TrimStart(s));
    TrimEndNoSpace(TrimStart(s));
  }

  lemma {:induction false} TrimStartNoSpace(s: string)
    ensures TrimStart(s) != [] ==> !IsSpace(TrimStart(s)[0])
    decreases |s|
  {
    if |s| > 0 && IsSpace(s[0]) {
      TrimStartNoSpace(s[1..]);
    }
  }

  lemma {:induction false} TrimEndNoSpace(s: string)
    ensures TrimEnd(s) != [] ==> !IsSpace(TrimEnd(s)[|TrimEnd(s)| - 1])
    decreases |s|
  {
    if |s| > 0 && IsSpace(s[|s| - 1]) {
      TrimEndNoSpace(s[..|s| - 1]);
    }
  }

  lemma {:induction false} TrimEndIsPrefix(s: string)
    ensures |TrimEnd(s)| <= |s| && TrimEnd(s) == s[..|TrimEnd(s)|]
    decreases |s|
  {
    if |s| > 0 && IsSpace(s[|s| - 1]) {
      TrimEndIsPrefix(s[..|s| - 1]);
    }
  }

  /** Trimming only removes characters: one absent from a string is absent from its trim. */
  lemma TrimSubsequence(s: string, c: char)
    requires c !in s
    ensures c !in Trim(s)
  {
    TrimStartIsSuffix(s);
    TrimEndIsPrefix(TrimStart(s));
    var t := TrimStart(s);
    assert t == s[|s| - |t|..];
    forall k | 0 <= k < |t|
      ensures t[k] != c
    {
      assert t[k] == s[|s| - |t| + k];
    }
    forall k | 0 <= k < |Trim(s)|
      ensures Trim(s)[k] != c
    {
      assert Trim(s)[k] == t[k];
    }
  }

  lemma {:induction false} TrimStartIsSuffix(s: string)
    ensures |TrimStart(s)| <= |s| && TrimStart(s) == s[|s| - |TrimStart(s)|..]
    decreases |s|
  {
    if |s| > 0 && IsSpace(s[0]) {
      TrimStartIsSuffix(s[1..]);
      assert s[1..][|s[1..]| - |TrimStart(s)|..] == s[|s| - |TrimStart(s)|..];
    }
  }

  /** How many UTF-16 code units a character takes: two for one outside the Basic Multilingual Plane. */
  function CodeUnits(c: char): nat {
    if c as int >= 0x10000 then 2 else 1
  }

  /** `s.length`: the number of UTF-16 code units, not of characters. */
  function Length(s: string): nat
    decreases |s|
  {
    if s == [] then 0 else CodeUnits(s[0]) + Length(s[1..])
  }

  /** The length in code units adds up over a concatenation. */
  lemma {:induction false} LengthAppend(a: string, b: string)
    ensures Length(a + b) == Length(a) + Length(b)
    decreases |a|
  {
    if a == [] {
      assert a + b == b;
    } else {
      assert (a + b)[0] == a[0];
      assert (a + b)[1..] == a[1..] + b;
      LengthAppend(a[1..], b);
    }
  }

  /** At least one code unit per character, and no code units exactly for the empty string. */
  lemma {:induction false} LengthAtLeastSize(s: string)
    ensures Length(s) >= |s|
    ensures Length(s) == 0 <==> s == []
    decreases |s|
  {
    if s != [] {
      LengthAtLeastSize(s[1..]);
    }
  }

  /** Trimming never adds code units. */
  lemma TrimFewerUnits(s: string)
    ensures Length(Trim(s)) <= Length(s)
  {
    TrimStartFewerUnits(s);
    TrimEndFewerUnits(TrimStart(s));
  }

  lemma {:induction false} TrimStartFewerUnits(s: string)
    ensures Length(TrimStart(s)) <= Length(s)
    decreases |s|
  {
    if |s| > 0 && IsSpace(s[0]) {
      TrimStartFewerUnits(s[1..]);
    }
  }

  lemma {:induction false} TrimEndFewerUnits(s: string)
    ensures Length(TrimEnd(s)) <= Length(s)
    decreases |s|
  {
    if |s| > 0 && IsSpace(s[|s| - 1]) {
      var init := s[..|s| - 1];
      TrimEndFewerUnits(init);
      assert s == init + [s[|s| - 1]];
      LengthAppend(init, [s[|s| - 1]]);
    }
  }

  function LowerChar(c: char): char {
    if 'A' <= c <= 'Z' then (c as int + 32) as char else c
  }

  /** `String.prototype.toLowerCase` on ASCII letters. */
  function ToLower(s: string): string {
    seq(|s|, k requires 0 <= k < |s| => LowerChar(s[k]))
  }

  /**
   * Lowercasing keeps the length, leaves no ASCII capital, changes only
   * capitals, and a second pass changes nothing.
   */
  lemma ToLowerSpec(s: string)
    ensures |ToLower(s)| == |s|
    ensures forall k :: 0 <= k < |s| ==> !('A' <= ToLower(s)[k] <= 'Z')
    ensures forall k :: 0 <= k < |s| && !('A' <= s[k] <= 'Z') ==> ToLower(s)[k] == s[k]
    ensures ToLower(ToLower(s)) == ToLower(s)
  {
  }

  /** `s.startsWith(p)`, equivalently `s.indexOf(p) === 0`. */
  predicate StartsWith(s: string, p: string) {
    |p| <= |s| && s[..|p|] == p
  }

  /** `s.includes(sub)`. */
  predicate Includes(s: string, sub: string)
    decreases |s|
  {
    StartsWith(s, sub) || (|s| > 0 && Includes(s[1..], sub))
  }

  /** `s.indexOf(c)`, with `|s|` standing for -1 (not found). */
  function IndexOf(s: string, c: char): (k: nat)
    ensures k <= |s|
    ensures k < |s| ==> s[k] == c
    ensures c !in s[..k]
  {
    if |s| == 0 then 0
    else if s[0] == c then 0
    else 1 + IndexOf(s[1..], c)
  }

  /** The inverse of `Split`: the pieces glued back with the separator between them. */
  function Join(pieces: seq<string>, d: char): string
    requires |pieces| >= 1
  {
    if |pieces| == 1 then pieces[0] else pieces[0] + [d] + Join(pieces[1..], d)
  }

  /**
   * `s.split(d)` for a one-character separator: never empty (the empty string
   * splits into one empty piece), no piece contains the separator, and the
   * pieces joined back give `s`.
   */
  function Split(s: string, d: char): (pieces: seq<string>)
    ensures |pieces| >= 1
    ensures forall i :: 0 <= i < |pieces| ==> d !in pieces[i]
    ensures Join(pieces, d) == s
    decreases |s|
  {
    var k := IndexOf(s, d);
    if k == |s| then [s]
    else
      var rest := Split(s[k + 1..], d);
      assert s == s[..k] + [d] + s[k + 1..];
      [s[..k]] + rest
  }
  /** The character of one decimal digit. */
  function DigitChar(d: nat): (c: char)
    requires d < 10
    ensures '0' <= c <= '9' && c as int - '0' as int == d
  {
    ('0' as int + d) as char
  }

  /** The decimal digits of a natural number, most significant first, no leading zeros. */
  function NaturalText(n: nat): string
    decreases n
  {
    if n < 10 then [DigitChar(n)] else NaturalText(n / 10) + [DigitChar(n % 10)]
  }

  /** The decimal text of an integer, as `String(n)` writes it: a '-' before the digits of a negative one. */
  function IntegerText(n: int): string {
    if n < 0 then "-" + NaturalText(-n) else NaturalText(n)
  }

  /** The value of a run of decimal digits. */
  function DigitsValue(s: string): int
    decreases |s|
  {
    if s == [] then 0 else DigitsValue(s[..|s| - 1]) * 10 + (s[|s| - 1] as int - '0' as int)
  }

  /** The value of decimal text with an optional leading '-'. */
  function TextValue(s: string): int {
    if |s| > 0 && s[0] == '-' then -DigitsValue(s[1..]) else DigitsValue(s)
  }

  /** The digits of a natural number are non-empty, all digits, and read back as the number. */
  lemma {:induction false} NaturalTextRoundTrip(n: nat)
    ensures NaturalText(n) != []
    ensures forall k :: 0 <= k < |NaturalText(n)| ==> '0' <= NaturalText(n)[k] <= '9'
    ensures DigitsValue(NaturalText(n)) == n
    decreases n
  {
    if n >= 10 {
      NaturalTextRoundTrip(n / 10);
      var t := NaturalText(n);
      assert t[..|t| - 1] == NaturalText(n / 10);
    }
  }

  /** Integer text reads back as the integer, so distinct integers have distinct texts. */
  lemma IntegerTextRoundTrip(n: int)
    ensures TextValue(IntegerText(n)) == n
  {
    if n < 0 {
      NaturalTextRoundTrip(-n);
      assert IntegerText(n)[1..] == NaturalText(-n);
    } else {
      NaturalTextRoundTrip(n);
      assert NaturalText(n)[0] != '-';
    }
  }
}
