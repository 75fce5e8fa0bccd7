/** Text handling on both ends of the serial line: Python's `str.strip()` and
    `int(text, base)` on the host, Arduino's `print(n, HEX)` and `println` on
    the firmware. */
module Text {
  import opened Outcomes

  /** Python's `str.isspace()` for a single character. */
  predicate IsSpace(c: char) {
    var u := c as int;
    || 9 <= u <= 13
    || 28 <= u <= 32
    || u == 0x85 || u == 0xA0 || u == 0x1680
    || 0x2000 <= u <= 0x200A
    || u == 0x2028 || u == 0x2029 || u == 0x202F || u == 0x205F || u == 0x3000
  }

  predicate AllSpace(s: string) {
    forall k :: 0 <= k < |s| ==> IsSpace(s[k])
  }

  /** No whitespace anywhere: command words, hex numbers. */
  predicate NoSpace(s: string) {
    forall k :: 0 <= k < |s| ==> !IsSpace(s[k])
  }

  /** No whitespace at either end. */
  predicate Trimmed(s: string) {
    |s| == 0 || (!IsSpace(s[0]) && !IsSpace(s[|s| - 1]))
  }

  function StripLeft(s: string): (r: string)
    ensures |r| <= |s| && (|r| > 0 ==> !IsSpace(r[0]))
  {
    if |s| > 0 && IsSpace(s[0]) then StripLeft(s[1..]) else s
  }

  function StripRight(s: string): (r: string)
    ensures |r| <= |s| && (|r| > 0 ==> !IsSpace(r[|r| - 1]))
  {
    if |s| > 0 && IsSpace(s[|s| - 1]) then StripRight(s[..|s| - 1]) else s
  }

  /** `lstrip` removes a leading run of whitespace and nothing else. */
  lemma {:induction false} StripLeftRemovesSpace(s: string)
    ensures var r := StripLeft(s); r == s[|s| - |r|..] && AllSpace(s[..|s| - |r|])
  {
    if |s| > 0 && IsSpace(s[0]) {
      StripLeftRemovesSpace(s[1..]);
      var r := StripLeft(s);
      assert s[1..][|s| - 1 - |r|..] == s[|s| - |r|..];
      assert s[..|s| - |r|] == [s[0]] + s[1..][..|s| - 1 - |r|];
    }
  }

  /** `rstrip` removes a trailing run of whitespace and nothing else. */
  lemma {:induction false} StripRightRemovesSpace(s: string)
    ensures var r := StripRight(s); r == s[..|r|] && AllSpace(s[|r|..])
  {
    if |s| > 0 && IsSpace(s[|s| - 1]) {
      StripRightRemovesSpace(s[..|s| - 1]);
      var r := StripRight(s);
      assert s[..|s| - 1][..|r|] == s[..|r|];
      assert s[|r|..] == s[..|s| - 1][|r|..] + [s[|s| - 1]];
    }
  }

  /** The length of the run of whitespace that opens `s`. */
  function LeadingSpace(s: string): (n: nat)
    ensures n <= |s| && AllSpace(s[..n]) && (n < |s| ==> !IsSpace(s[n]))
  {
    if |s| > 0 && IsSpace(s[0]) then
      var n := 1 + LeadingSpace(s[1..]);
      assert s[..n] == [s[0]] + s[1..][..n - 1];
      n
    else 0
  }

  lemma {:induction false} StripLeftLength(s: string)
    ensures |StripLeft(s)| == |s| - LeadingSpace(s)
  {
    if |s| > 0 && IsSpace(s[0]) {
      StripLeftLength(s[1..]);
    }
  }

  /** Python's `str.strip()`: the text between the leading and the trailing
      whitespace. The result is the slice of `s` after its leading run of
      whitespace, with only whitespace after it, and it is trimmed, so no
      more whitespace could have been removed. */
  function Strip(s: string): (r: string)
    ensures Trimmed(r) && |r| <= |s|
    ensures AllSpace(s) ==> r == []
    ensures var i := LeadingSpace(s);
      && i + |r| <= |s|
      && r == s[i..i + |r|]
      && AllSpace(s[..i]) && AllSpace(s[i + |r|..])
  {
    var left := StripLeft(s);
    StripLeftRemovesSpace(s);
    StripLeftLength(s);
    var i := LeadingSpace(s);
    assert left == s[i..];
    StripRightRemovesSpace(left);
    assert |left| > 0 ==> left[0] == s[|s| - |left|];
    var r := StripRight(left);
    assert r == s[i..i + |r|];
    assert s[i + |r|..] == left[|r|..];
    r
  }

  /** A line as Arduino's `Serial.println(text)` sends it. */
  function Line(text: string): string {
    text + "\r\n"
  }

  lemma StripTrimmed(s: string)
    requires Trimmed(s)
    ensures Strip(s) == s
  {
  }

  /** The host's strip of a println'd line gives back the printed text. */
  lemma StripLine(text: string)
    requires Trimmed(text)
    ensures Strip(Line(text)) == text
  {
    var s := Line(text);
    if |text| == 0 {
      assert StripLeft(s) == StripLeft(s[1..]) == StripLeft(s[2..]);
      assert s[2..] == [];
    } else {
      assert StripLeft(s) == s;
      assert s[..|s| - 1] == text + "\r";
      assert (text + "\r")[..|text|] == text;
      assert StripRight(s) == StripRight(text + "\r") == StripRight(text) == text;
    }
  }

  /** `strip` removes exactly the whitespace padding around a trimmed text. */
  lemma StripPadded(pre: string, t: string, post: string)
    requires AllSpace(pre) && AllSpace(post) && Trimmed(t)
    ensures Strip(pre + t + post) == t
  {
    var x := pre + t + post;
    var r := Strip(x);
    assert forall k :: 0 <= k < |pre| ==> x[k] == pre[k];
    assert forall k :: |pre| + |t| <= k < |x| ==> x[k] == post[k - |pre| - |t|];
    if |t| == 0 {
      assert AllSpace(x);
    } else {
      assert x[|pre|] == t[0];
      var n := LeadingSpace(x);
      assert forall k :: 0 <= k < n ==> IsSpace(x[k]) by {
        forall k | 0 <= k < n
          ensures IsSpace(x[k])
        {
          assert x[..n][k] == x[k];
        }
      }
      assert n == |pre|;
      assert forall k :: n + |r| <= k < |x| ==> IsSpace(x[k]) by {
        forall k | n + |r| <= k < |x|
          ensures IsSpace(x[k])
        {
          assert x[n + |r|..][k - n - |r|] == x[k];
        }
      }
      var e := |pre| + |t| - 1;
      assert x[e] == t[|t| - 1];
      assert |r| >= |t|;
      assert r[|r| - 1] == x[n + |r| - 1];
      assert |r| == |t|;
      assert x[n..n + |t|] == t;
    }
  }

  function DigitValue(c: char): (r: Option<nat>)
    ensures r.Some? ==> r.value < 16
  {
    if '0' <= c <= '9' then Some(c as int - '0' as int)
    else if 'a' <= c <= 'f' then Some(c as int - 'a' as int + 10)
    else if 'A' <= c <= 'F' then Some(c as int - 'A' as int + 10)
    else None
  }

  predicate IsDigit(c: char, base: nat) {
    DigitValue(c).Some? && DigitValue(c).value < base
  }

  predicate AllDigits(s: string, base: nat) {
    forall k :: 0 <= k < |s| ==> IsDigit(s[k], base)
  }

  /** The value of a digit string, most significant digit first. */
  function DigitsValue(s: string, base: nat): nat
    requires AllDigits(s, base)
  {
    if |s| == 0 then 0
    else DigitsValue(s[..|s| - 1], base) * base + DigitValue(s[|s| - 1]).value
  }

  predicate IsSign(c: char) {
    c == '-' || c == '+'
  }

  /** An optional sign followed by at least one digit of the base. */
  predicate Numeral(t: string, base: nat) {
    || (|t| > 1 && IsSign(t[0]) && AllDigits(t[1..], base))
    || (|t| > 0 && AllDigits(t, base))
  }

  /** Python's `int(text, base)` for base 10 and 16: surrounding whitespace,
      an optional sign, then at least one digit of the base, either case. */
  function ParseInt(text: string, base: nat): (r: Result<int>)
    requires base == 10 || base == 16
    ensures r.Err? ==> r.error == NotAnInteger(text)
    ensures r.Ok? <==> Numeral(Strip(text), base)
    ensures r.Ok? && IsSign(Strip(text)[0]) ==>
      r.value == (if Strip(text)[0] == '-' then -1 else 1) * DigitsValue(Strip(text)[1..], base)
    ensures r.Ok? && !IsSign(Strip(text)[0]) ==> r.value == DigitsValue(Strip(text), base)
  {
    var t := Strip(text);
    var signed := |t| > 0 && (t[0] == '-' || t[0] == '+');
    var digits := if signed then t[1..] else t;
    if |digits| > 0 && AllDigits(digits, base) then
      var v: int := DigitsValue(digits, base);
      Ok(if signed && t[0] == '-' then -v else v)
    else
      Err(NotAnInteger(text))
  }

  function HexDigit(d: nat): (c: char)
    requires d < 16
    ensures DigitValue(c) == Some(d) && !IsSpace(c)
  {
    if d < 10 then ('0' as int + d) as char else ('A' as int + d - 10) as char
  }

  /** Arduino's `print(n, HEX)`: upper-case digits without leading zeros. */
  function FormatHex(n: nat): (r: string)
    ensures |r| > 0 && NoSpace(r) && AllDigits(r, 16)
    ensures DigitsValue(r, 16) == n
    ensures r[0] == '0' ==> n == 0
  {
    if n < 16 then [HexDigit(n)]
    else
      var r := FormatHex(n / 16) + [HexDigit(n % 16)];
      assert r[..|r| - 1] == FormatHex(n / 16);
      r
  }

  /** Hex printing and `int(_, 16)` are inverse. */
  lemma ParseFormatHex(n: nat)
    ensures ParseInt(FormatHex(n), 16) == Ok(n)
  {
    ParseDigitString(FormatHex(n), 16);
  }

  /** A value printed in hex below ten reads back under `int(_)` as well. */
  lemma ParseFormatSmall(n: nat)
    requires n < 10
    ensures ParseInt(FormatHex(n), 10) == Ok(n)
  {
    var t := FormatHex(n);
    assert t == [HexDigit(n)];
    ParseDigitString(t, 10);
  }

  /** No digit of either base is whitespace. */
  lemma DigitNotSpace(c: char, base: nat)
    requires IsDigit(c, base)
    ensures !IsSpace(c)
  {
  }

  /** `int(text, base)` of whitespace, an optional sign, digits and
      whitespace is the digits' value, negated under a minus sign. */
  lemma ParseIntPadded(pre: string, sign: string, d: string, post: string, base: nat)
    requires base == 10 || base == 16
    requires AllSpace(pre) && AllSpace(post)
    requires |sign| <= 1 && (|sign| == 1 ==> IsSign(sign[0]))
    requires |d| > 0 && AllDigits(d, base)
    ensures ParseInt(pre + (sign + d) + post, base)
      == Ok((if sign == "-" then -1 else 1) * DigitsValue(d, base))
  {
    var t := sign + d;
    DigitNotSpace(d[0], base);
    DigitNotSpace(d[|d| - 1], base);
    assert t[|t| - 1] == d[|d| - 1];
    StripPadded(pre, t, post);
    ParseStripped(pre + t + post, t, sign, d, base);
  }

  lemma ParseStripped(text: string, t: string, sign: string, d: string, base: nat)
    requires base == 10 || base == 16
    requires Strip(text) == t && t == sign + d
    requires |sign| <= 1 && (|sign| == 1 ==> IsSign(sign[0]))
    requires |d| > 0 && AllDigits(d, base)
    ensures ParseInt(text, base) == Ok((if sign == "-" then -1 else 1) * DigitsValue(d, base))
  {
    var r := ParseInt(text, base);
    if |sign| == 1 {
      assert t[0] == sign[0] && t[1..] == d;
      assert Numeral(t, base);
      assert r.Ok?;
    } else {
      assert t == d;
      assert !IsSign(t[0]) by { DigitNotSign(d[0], base); }
      assert Numeral(t, base);
      assert r.Ok?;
    }
  }

  lemma DigitNotSign(c: char, base: nat)
    requires IsDigit(c, base)
    ensures !IsSign(c)
  {
  }

  /** An unsigned digit string without whitespace parses to its value. */
  lemma ParseDigitString(t: string, base: nat)
    requires base == 10 || base == 16
    requires |t| > 0 && NoSpace(t) && AllDigits(t, base)
    ensures ParseInt(t, base) == Ok(DigitsValue(t, base))
  {
    StripTrimmed(t);
    assert IsDigit(t[0], base);
    assert t[0] != '-' && t[0] != '+';
  }
}
