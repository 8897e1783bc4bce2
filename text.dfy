/** The string operations the booking code relies on: `includes`, `startsWith`,
    `trim`, `toLowerCase` and decimal digits. */
module Text {

  /** `p` is a prefix of `s` (JavaScript's `s.startsWith(p)`). */
  predicate IsPrefix(p: string, s: string)
  {
    |p| <= |s| && s[..|p|] == p
  }

  /** JavaScript's `s.includes(sub)`: `sub` occurs in `s`, tried at each position in turn. */
  predicate Contains(s: string, sub: string)
    decreases |s|
  {
    IsPrefix(sub, s) || (|s| > 0 && Contains(s[1..], sub))
  }

  /** `sub` occurs in `s` starting at index `i`. */
  predicate OccursAt(s: string, sub: string, i: int)
  {
    0 <= i && i + |sub| <= |s| && s[i..i + |sub|] == sub
  }

  /** The positional reading of `Contains`: some slice of `s` equals `sub`. */
  lemma {:induction false} ContainsIff(s: string, sub: string)
    ensures Contains(s, sub) <==> exists i :: OccursAt(s, sub, i)
    decreases |s|
  {
    if Contains(s, sub) {
      if IsPrefix(sub, s) {
        assert OccursAt(s, sub, 0);
      } else {
        ContainsIff(s[1..], sub);
        var i :| OccursAt(s[1..], sub, i);
        assert s[i + 1..i + 1 + |sub|] == s[1..][i..i + |sub|];
        assert OccursAt(s, sub, i + 1);
      }
    }
    if exists i :: OccursAt(s, sub, i) {
      var i :| OccursAt(s, sub, i);
      ContainsAt(s, sub, i);
    }
  }

  lemma {:induction false} ContainsAt(s: string, sub: string, i: nat)
    requires OccursAt(s, sub, i)
    ensures Contains(s, sub)
    decreases i
  {
    if i == 0 {
      assert IsPrefix(sub, s);
    } else {
      assert s[1..][i - 1..i - 1 + |sub|] == s[i..i + |sub|];
      ContainsAt(s[1..], sub, i - 1);
    }
  }

  /** Every character of a contained string is a character of the containing one. */
  lemma {:induction false} ContainedCharsOccur(s: string, sub: string, k: nat)
    requires Contains(s, sub) && k < |sub|
    ensures sub[k] in s
    decreases |s|
  {
    if IsPrefix(sub, s) {
      assert s[k] == sub[k];
    } else {
      ContainedCharsOccur(s[1..], sub, k);
      var j :| 0 <= j < |s| - 1 && s[1..][j] == sub[k];
      assert s[j + 1] == sub[k];
    }
  }

  /** The characters that JavaScript's `trim` removes and that the regular-expression
      class `\s` matches: the ECMAScript WhiteSpace and LineTerminator characters. */
  predicate IsSpace(c: char)
  {
    c == ' ' || c == '\t' || c == '\n' || c == '\r' || c == '\U{000B}' || c == '\U{000C}'
    || c == '\U{00A0}' || c == '\U{1680}' || ('\U{2000}' <= c <= '\U{200A}')
    || c == '\U{2028}' || c == '\U{2029}' || c == '\U{202F}' || c == '\U{205F}'
    || c == '\U{3000}' || c == '\U{FEFF}'
  }

  function TrimStart(s: string): (r: string)
    ensures |r| <= |s| && r == s[|s| - |r|..]
    ensures r == [] || !IsSpace(r[0])
    ensures forall k :: 0 <= k < |s| - |r| ==> IsSpace(s[k])
    decreases |s|
  {
    if |s| > 0 && IsSpace(s[0]) then TrimStart(s[1..]) else s
  }

  function TrimEnd(s: string): (r: string)
    ensures |r| <= |s| && r == s[..|r|]
    ensures r == [] || !IsSpace(r[|r| - 1])
    ensures forall k :: |r| <= k < |s| ==> IsSpace(s[k])
    decreases |s|
  {
    if |s| > 0 && IsSpace(s[|s| - 1]) then TrimEnd(s[..|s| - 1]) else s
  }

  /** JavaScript's `s.trim()`: `s` without its leading and trailing white space. */
  function Trim(s: string): (r: string)
    ensures r == [] <==> forall k :: 0 <= k < |s| ==> IsSpace(s[k])
    ensures r != [] ==> !IsSpace(r[0]) && !IsSpace(r[|r| - 1])
    ensures OccursAt(s, r, |s| - |TrimStart(s)|)
  {
    TrimIsSlice(s);
    TrimEmptyOnlyIfBlank(s);
    TrimNonEmptyIfNotBlank(s);
    TrimEnd(TrimStart(s))
  }

  lemma TrimIsSlice(s: string)
    ensures OccursAt(s, TrimEnd(TrimStart(s)), |s| - |TrimStart(s)|)
  {
    var t := TrimStart(s);
    var r := TrimEnd(t);
    var off := |s| - |t|;
    assert t == s[off..];
    assert r == t[..|r|];
    PrefixOfSuffix(s, off, |r|);
  }

  /** A prefix of a suffix is a slice. */
  lemma PrefixOfSuffix(s: string, off: int, n: int)
    requires 0 <= off <= |s| && 0 <= n <= |s| - off
    ensures s[off..][..n] == s[off..off + n]
  {
  }

  lemma TrimEmptyOnlyIfBlank(s: string)
    ensures TrimEnd(TrimStart(s)) == [] ==> forall k :: 0 <= k < |s| ==> IsSpace(s[k])
  {
    var t := TrimStart(s);
    if TrimEnd(t) == [] {
      // a non-empty `t` starts with a non-space, which `TrimEnd` would keep
      assert t == [];
    }
  }

  lemma TrimNonEmptyIfNotBlank(s: string)
    ensures TrimEnd(TrimStart(s)) != [] ==> !IsSpace(s[|s| - |TrimStart(s)|])
  {
    var t := TrimStart(s);
    var r := TrimEnd(t);
    if r != [] {
      assert r[0] == t[0] == s[|s| - |t|];
    }
  }

  /** The lower-case form of an ASCII letter; every other character is unchanged. */
  function LowerChar(c: char): char
  {
    if 'A' <= c <= 'Z' then (c as int + 32) as char else c
  }

  /** JavaScript's `s.toLowerCase()`, on the ASCII letters. */
  function ToLower(s: string): (r: string)
    ensures |r| == |s|
    ensures forall k :: 0 <= k < |s| ==> r[k] == LowerChar(s[k])
  {
    seq(|s|, k requires 0 <= k < |s| => LowerChar(s[k]))
  }

  /** `a.toLowerCase() === b.toLowerCase()`. */
  predicate SameIgnoringCase(a: string, b: string)
  {
    ToLower(a) == ToLower(b)
  }

  predicate IsDigit(c: char)
  {
    '0' <= c <= '9'
  }

  predicate AllDigits(s: string)
  {
    forall k :: 0 <= k < |s| ==> IsDigit(s[k])
  }

  function DigitChar(d: int): (c: char)
    requires 0 <= d < 10
    ensures IsDigit(c) && DigitValue(c) == d
  {
    ('0' as int + d) as char
  }

  function DigitValue(c: char): (d: int)
    requires IsDigit(c)
    ensures 0 <= d < 10
  {
    c as int - '0' as int
  }

  lemma DigitCharOfValue(c: char)
    requires IsDigit(c)
    ensures DigitChar(DigitValue(c)) == c
  {
  }

  /** `String(n)` for a natural number: its decimal numeral without leading zeros. */
  function Numeral(n: nat): (r: string)
    ensures |r| >= 1 && AllDigits(r) && NumeralValue(r) == n
    ensures r[0] == '0' ==> n == 0
    decreases n
  {
    if n < 10 then [DigitChar(n)]
    else
      var front := Numeral(n / 10);
      var r := front + [DigitChar(n % 10)];
      assert r[..|r| - 1] == front;
      assert r[0] == front[0];
      r
  }

  /** JavaScript's `s.length`: the number of UTF-16 code units, two for each
      character above U+FFFF. */
  function Utf16Length(s: string): (r: nat)
    ensures |s| <= r <= 2 * |s|
    ensures (forall k :: 0 <= k < |s| ==> s[k] as int <= 0xFFFF) ==> r == |s|
    decreases |s|
  {
    if s == [] then 0
    else (if s[0] as int > 0xFFFF then 2 else 1) + Utf16Length(s[1..])
  }

  /** A character outside the Basic Multilingual Plane counts twice. */
  lemma Utf16LengthOfEmoji()
    ensures |"\U{1F600}\U{1F600}\U{1F600}"| == 3
    ensures Utf16Length("\U{1F600}\U{1F600}\U{1F600}") == 6
  {
    var s := "\U{1F600}\U{1F600}\U{1F600}";
    assert s[1..][1..][1..] == [];
  }

  /** `Number(s)` for a string of decimal digits. */
  function NumeralValue(s: string): (n: nat)
    requires AllDigits(s)
    decreases |s|
  {
    if s == [] then 0 else NumeralValue(s[..|s| - 1]) * 10 + DigitValue(s[|s| - 1])
  }

  lemma NumeralValueOfTwo(d: string)
    requires |d| == 2 && AllDigits(d)
    ensures NumeralValue(d) == DigitValue(d[0]) * 10 + DigitValue(d[1])
  {
    var front := d[..1];
    assert front[..0] == [];
    assert NumeralValue(front) == DigitValue(d[0]);
    assert NumeralValue(d) == NumeralValue(front) * 10 + DigitValue(d[1]);
  }
}
