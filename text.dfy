/** The JavaScript string operations the components rely on: `toLowerCase`,
    `toUpperCase`, `trim`, `includes`, `parseInt` and number-to-text. */
module Text {

  import opened Types

  /** The characters `String.prototype.trim` and `parseInt` skip: white space
      and line terminators of ECMAScript. */
  predicate IsWhitespace(c: char) {
    c == '\t' || c == '\n' || c == '\U{000B}' || c == '\U{000C}' || c == '\r' || c == ' '
    || c == '\U{00A0}' || c == '\U{1680}' || ('\U{2000}' <= c <= '\U{200A}')
    || c == '\U{2028}' || c == '\U{2029}' || c == '\U{202F}' || c == '\U{205F}'
    || c == '\U{3000}' || c == '\U{FEFF}'
  }

  predicate IsUpperLetter(c: char) {
    'A' <= c <= 'Z' || ('\U{00C0}' <= c <= '\U{00DE}' && c != '\U{00D7}')
  }

  predicate IsLowerLetter(c: char) {
    'a' <= c <= 'z' || ('\U{00E0}' <= c <= '\U{00FE}' && c != '\U{00F7}')
  }

  function LowerChar(c: char): (r: char)
    ensures IsUpperLetter(c) ==> IsLowerLetter(r)
    ensures !IsUpperLetter(c) ==> r == c
    ensures !IsUpperLetter(r)
  {
    if IsUpperLetter(c) then (c as int + 32) as char else c
  }

  function UpperChar(c: char): (r: char)
    ensures IsLowerLetter(c) ==> IsUpperLetter(r)
    ensures !IsLowerLetter(c) ==> r == c
    ensures !IsLowerLetter(r)
  {
    if IsLowerLetter(c) then (c as int - 32) as char else c
  }

  /** `s.toLowerCase()`. */
  function ToLower(s: string): (r: string)
    ensures |r| == |s|
    ensures forall i :: 0 <= i < |s| ==> r[i] == LowerChar(s[i])
  {
    seq(|s|, i requires 0 <= i < |s| => LowerChar(s[i]))
  }

  /** `s.toUpperCase()`. */
  function ToUpper(s: string): (r: string)
    ensures |r| == |s|
    ensures forall i :: 0 <= i < |s| ==> r[i] == UpperChar(s[i])
  {
    seq(|s|, i requires 0 <= i < |s| => UpperChar(s[i]))
  }

  /** Lower-casing twice is lower-casing once. */
  lemma ToLowerIdempotent(s: string)
    ensures ToLower(ToLower(s)) == ToLower(s)
  {
  }

  /** Upper-casing leaves no lower-case letter and is idempotent. */
  lemma ToUpperIdempotent(s: string)
    ensures forall i :: 0 <= i < |s| ==> !IsLowerLetter(ToUpper(s)[i])
    ensures ToUpper(ToUpper(s)) == ToUpper(s)
  {
  }

  predicate AllWhitespace(s: string) {
    forall i :: 0 <= i < |s| ==> IsWhitespace(s[i])
  }

  /** Drops the leading white space. */
  function TrimStart(s: string): (r: string)
    ensures |r| <= |s| && r == s[|s| - |r|..]
    ensures AllWhitespace(s[..|s| - |r|])
    ensures r == [] || !IsWhitespace(r[0])
  {
    if |s| > 0 && IsWhitespace(s[0]) then
      var r := TrimStart(s[1..]);
      assert s[..|s| - |r|] == [s[0]] + s[1..][..|s| - 1 - |r|];
      r
    else s
  }

  /** Drops the trailing white space. */
  function TrimEnd(s: string): (r: string)
    ensures |r| <= |s| && r == s[..|r|]
    ensures AllWhitespace(s[|r|..])
    ensures r == [] || !IsWhitespace(r[|r| - 1])
  {
    if |s| > 0 && IsWhitespace(s[|s| - 1]) then
      var r := TrimEnd(s[..|s| - 1]);
      assert s[|r|..] == s[..|s| - 1][|r|..] + [s[|s| - 1]];
      r
    else s
  }

  /** `s.trim()`: the slice of `s` between the leading and the trailing
      white space. */
  function Trim(s: string): (r: string)
    ensures |r| <= |TrimStart(s)| && r == TrimStart(s)[..|r|]
    ensures AllWhitespace(TrimStart(s)[|r|..])
    ensures r == [] || (!IsWhitespace(r[0]) && !IsWhitespace(r[|r| - 1]))
  {
    var r := TrimEnd(TrimStart(s));
    assert r != [] ==> r[0] == TrimStart(s)[0];
    r
  }

  /** Position `i` of the trimmed text is the position after the leading
      white space plus `i`. */
  lemma TrimIndex(s: string, i: int)
    requires 0 <= i < |Trim(s)|
    ensures Trim(s)[i] == s[|s| - |TrimStart(s)| + i]
  {
    var u := TrimStart(s);
    var k := |s| - |u|;
    assert Trim(s)[i] == u[i];
    assert u == s[k..];
  }

  /** Trimming twice is trimming once. */
  lemma TrimIdempotent(s: string)
    ensures Trim(Trim(s)) == Trim(s)
  {
    var t := Trim(s);
    assert TrimStart(t) == t;
  }

  lemma {:induction false} TrimStartSkipsWhitespace(w: string, x: string)
    requires AllWhitespace(w)
    ensures TrimStart(w + x) == TrimStart(x)
  {
    if w != [] {
      assert IsWhitespace(w[0]) && (w + x)[0] == w[0];
      assert (w + x)[1..] == w[1..] + x;
      TrimStartSkipsWhitespace(w[1..], x);
    } else {
      assert w + x == x;
    }
  }

  lemma {:induction false} TrimEndSkipsWhitespace(x: string, w: string)
    requires AllWhitespace(w)
    ensures TrimEnd(x + w) == TrimEnd(x)
  {
    if w != [] {
      var w' := w[..|w| - 1];
      assert IsWhitespace(w[|w| - 1]) && (x + w)[|x + w| - 1] == w[|w| - 1];
      assert (x + w)[..|x + w| - 1] == x + w';
      TrimEndSkipsWhitespace(x, w');
    } else {
      assert x + w == x;
    }
  }

  /** Once the start holds a visible character, text appended at the end
      passes through `TrimStart` untouched. */
  lemma {:induction false} TrimStartAppend(x: string, y: string)
    requires TrimStart(x) != []
    ensures TrimStart(x + y) == TrimStart(x) + y
  {
    if IsWhitespace(x[0]) {
      assert (x + y)[1..] == x[1..] + y;
      TrimStartAppend(x[1..], y);
    }
  }

  /** Text that is all white space stays so when white space is appended. */
  lemma TrimStartBlank(s: string, w: string)
    requires TrimStart(s) == [] && AllWhitespace(w)
    ensures TrimStart(s + w) == []
  {
    assert s[..|s|] == s;
    var x := s + w;
    assert AllWhitespace(x);
    assert x + [] == x;
    TrimStartSkipsWhitespace(x, []);
  }

  /** `trim` ignores white space padding on either side. */
  lemma TrimIgnoresPadding(w1: string, s: string, w2: string)
    requires AllWhitespace(w1) && AllWhitespace(w2)
    ensures Trim(w1 + s + w2) == Trim(s)
  {
    assert w1 + s + w2 == w1 + (s + w2);
    TrimStartSkipsWhitespace(w1, s + w2);
    if TrimStart(s) == [] {
      TrimStartBlank(s, w2);
    } else {
      TrimStartAppend(s, w2);
      TrimEndSkipsWhitespace(TrimStart(s), w2);
    }
  }

  /** `s` and `t` have white space at exactly the same positions. */
  predicate SameSpacing(s: string, t: string) {
    |s| == |t| && forall i :: 0 <= i < |s| ==> (IsWhitespace(s[i]) <==> IsWhitespace(t[i]))
  }

  lemma {:induction false} TrimStartSameSpacing(s: string, t: string)
    requires SameSpacing(s, t)
    ensures |TrimStart(s)| == |TrimStart(t)|
  {
    if |s| > 0 && IsWhitespace(s[0]) {
      assert SameSpacing(s[1..], t[1..]);
      TrimStartSameSpacing(s[1..], t[1..]);
    }
  }

  lemma {:induction false} TrimEndSameSpacing(s: string, t: string)
    requires SameSpacing(s, t)
    ensures |TrimEnd(s)| == |TrimEnd(t)|
  {
    if |s| > 0 && IsWhitespace(s[|s| - 1]) {
      assert SameSpacing(s[..|s| - 1], t[..|t| - 1]);
      TrimEndSameSpacing(s[..|s| - 1], t[..|t| - 1]);
    }
  }

  /** Trimming depends only on where the white space is: two strings with
      the same spacing trim to the same length. */
  lemma TrimSameSpacing(s: string, t: string)
    requires SameSpacing(s, t)
    ensures |Trim(s)| == |Trim(t)|
  {
    TrimStartSameSpacing(s, t);
    var k := |s| - |TrimStart(s)|;
    assert TrimStart(s) == s[k..] && TrimStart(t) == t[k..];
    assert SameSpacing(s[k..], t[k..]);
    TrimEndSameSpacing(TrimStart(s), TrimStart(t));
  }

  predicate StartsWith(s: string, p: string) {
    |p| <= |s| && s[..|p|] == p
  }

  /** `s.includes(t)`. */
  predicate Contains(s: string, t: string)
    decreases |s|
  {
    StartsWith(s, t) || (|s| > 0 && Contains(s[1..], t))
  }

  /** `t` occurs in `s` starting at position `k`. */
  predicate OccursAt(s: string, t: string, k: int) {
    0 <= k <= |s| - |t| && s[k..k + |t|] == t
  }

  /** `includes` holds exactly when `t` occurs at some position of `s`. */
  lemma {:induction false} ContainsIff(s: string, t: string)
    ensures Contains(s, t) <==> exists k :: OccursAt(s, t, k)
  {
    if StartsWith(s, t) {
      assert OccursAt(s, t, 0);
    }
    if |s| > 0 {
      ContainsIff(s[1..], t);
      if Contains(s[1..], t) {
        var k :| OccursAt(s[1..], t, k);
        assert s[k + 1..k + 1 + |t|] == s[1..][k..k + |t|];
        assert OccursAt(s, t, k + 1);
      }
      if exists k :: OccursAt(s, t, k) {
        var k :| OccursAt(s, t, k);
        if k > 0 {
          assert s[1..][k - 1..k - 1 + |t|] == s[k..k + |t|];
          assert OccursAt(s[1..], t, k - 1);
        }
      }
    } else if exists k :: OccursAt(s, t, k) {
      var k :| OccursAt(s, t, k);
      assert t == [];
    }
  }

  /** The empty term is contained in every string. */
  lemma ContainsEmpty(s: string)
    ensures Contains(s, "")
  {
  }

  predicate IsDigit(c: char) {
    '0' <= c <= '9'
  }

  predicate AllDigits(s: string) {
    forall i :: 0 <= i < |s| ==> IsDigit(s[i])
  }

  function DigitValue(c: char): (d: nat)
    requires IsDigit(c)
    ensures d < 10
  {
    c as int - '0' as int
  }

  function DigitChar(d: nat): (c: char)
    requires d < 10
    ensures IsDigit(c) && DigitValue(c) == d
  {
    ('0' as int + d) as char
  }

  /** The longest prefix of decimal digits. */
  function DigitPrefix(s: string): (r: string)
    ensures AllDigits(r) && StartsWith(s, r)
    ensures |r| < |s| ==> !IsDigit(s[|r|])
  {
    if |s| > 0 && IsDigit(s[0]) then [s[0]] + DigitPrefix(s[1..]) else []
  }

  /** The value of a string of decimal digits (leading zeros allowed). */
  function DigitsValue(d: string): nat
    requires AllDigits(d)
  {
    if d == [] then 0 else 10 * DigitsValue(d[..|d| - 1]) + DigitValue(d[|d| - 1])
  }

  /** `parseInt(s)` in base 10: leading white space is skipped, an optional
      sign is read, then the longest run of digits; no digits gives NaN
      (`None`). */
  function ParseInt(s: string): (r: Option<int>)
    ensures r.None? <==> DigitPrefix(SignFree(TrimStart(s))) == []
  {
    var t := TrimStart(s);
    var d := DigitPrefix(SignFree(t));
    var v: int := if |t| > 0 && t[0] == '-' then -(DigitsValue(d) as int) else DigitsValue(d);
    if d == [] then None else Some(v)
  }

  function SignFree(t: string): string {
    if |t| > 0 && (t[0] == '-' || t[0] == '+') then t[1..] else t
  }

  /** The decimal text of a natural number, as template literals print it. */
  function NatToString(n: nat): (r: string)
    ensures |r| > 0 && AllDigits(r)
  {
    if n < 10 then [DigitChar(n)] else NatToString(n / 10) + [DigitChar(n % 10)]
  }

  lemma {:induction false} NatToStringValue(n: nat)
    ensures DigitsValue(NatToString(n)) == n
  {
    if n >= 10 {
      var s := NatToString(n);
      assert s[..|s| - 1] == NatToString(n / 10);
      NatToStringValue(n / 10);
    }
  }

  lemma {:induction false} DigitPrefixOfDigits(d: string, rest: string)
    requires AllDigits(d)
    requires rest == [] || !IsDigit(rest[0])
    ensures DigitPrefix(d + rest) == d
  {
    if d != [] {
      assert (d + rest)[1..] == d[1..] + rest;
      DigitPrefixOfDigits(d[1..], rest);
    } else {
      assert d + rest == rest;
    }
  }

  /** `parseInt` reads back the number `NatToString` writes, and stops at the
      first character that is not a digit. */
  lemma ParseIntNatToString(n: nat, rest: string)
    requires rest == [] || !IsDigit(rest[0])
    ensures ParseInt(NatToString(n) + rest) == Some(n)
  {
    var d := NatToString(n);
    var s := d + rest;
    assert s[0] == d[0];
    ParseIntDigitStart(s);
    DigitPrefixOfDigits(d, rest);
    NatToStringValue(n);
  }

  /** Text that starts with a digit is read from its first character on,
      without sign. */
  lemma ParseIntDigitStart(s: string)
    requires |s| > 0 && IsDigit(s[0])
    ensures ParseInt(s) == Some(DigitsValue(DigitPrefix(s)))
  {
    assert !IsWhitespace(s[0]);
    assert TrimStart(s) == s;
    assert SignFree(s) == s;
    assert DigitPrefix(s) != [];
  }

  /** Leading white space never changes what `parseInt` reads. */
  lemma ParseIntSkipsWhitespace(w: string, t: string)
    requires AllWhitespace(w)
    ensures ParseInt(w + t) == ParseInt(t)
  {
    TrimStartSkipsWhitespace(w, t);
  }

  /** Text that starts with `-` is read as the negated digits after it. */
  lemma ParseIntMinusStart(s: string, n: nat)
    requires |s| > 0 && s[0] == '-' && DigitPrefix(s[1..]) != []
    requires DigitsValue(DigitPrefix(s[1..])) == n
    ensures ParseInt(s) == Some(-(n as int))
  {
    assert !IsWhitespace(s[0]);
    assert TrimStart(s) == s;
    assert SignFree(s) == s[1..];
  }

  /** Text that starts with `+` is read as the digits after it. */
  lemma ParseIntPlusStart(s: string, n: nat)
    requires |s| > 0 && s[0] == '+' && DigitPrefix(s[1..]) != []
    requires DigitsValue(DigitPrefix(s[1..])) == n
    ensures ParseInt(s) == Some(n)
  {
    assert !IsWhitespace(s[0]);
    assert TrimStart(s) == s;
    assert SignFree(s) == s[1..];
  }

  /** `parseInt` reads back a signed number: `-` negates it, `+` keeps it. */
  lemma ParseIntSigned(n: nat, rest: string)
    requires rest == [] || !IsDigit(rest[0])
    ensures ParseInt("-" + NatToString(n) + rest) == Some(-(n as int))
    ensures ParseInt("+" + NatToString(n) + rest) == Some(n)
  {
    NatToStringValue(n);
    ParseIntSignedDigits(NatToString(n), rest, n);
  }

  lemma ParseIntSignedDigits(d: string, rest: string, n: nat)
    requires d != [] && AllDigits(d) && DigitsValue(d) == n
    requires rest == [] || !IsDigit(rest[0])
    ensures ParseInt("-" + d + rest) == Some(-(n as int))
    ensures ParseInt("+" + d + rest) == Some(n)
  {
    DigitPrefixOfDigits(d, rest);
    var minus, plus := "-" + d + rest, "+" + d + rest;
    assert minus[0] == '-' && minus[1..] == d + rest;
    assert plus[0] == '+' && plus[1..] == d + rest;
    ParseIntMinusStart(minus, n);
    ParseIntPlusStart(plus, n);
  }

  /** `parseInt` of the empty string or of white space alone is NaN. */
  lemma ParseIntBlank(s: string)
    requires AllWhitespace(s)
    ensures ParseInt(s) == None
  {
    TrimStartSkipsWhitespace(s, []);
    assert s + [] == s;
  }
}
