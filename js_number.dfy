/**
 * ECMAScript's `Number.parseInt(string)` with no radix, as `server.js` applies it to the interval
 * field of an upload: leading white space is skipped, one sign is read, a `0x`/`0X` prefix selects
 * radix 16, and the longest run of digits that follows is the value. Without a single digit the
 * result is NaN, here `None`. Values are unbounded (the double rounding of very long inputs is not
 * modelled).
 */
module JsNumber {
  import opened Base
  import opened Text

  predicate IsDecimalDigit(c: char) {
    '0' <= c <= '9'
  }

  /** A digit of radix `radix`; radix 16 takes letters in either case. */
  predicate IsDigitIn(c: char, radix: nat) {
    IsDecimalDigit(c) || (radix == 16 && ('a' <= c <= 'f' || 'A' <= c <= 'F'))
  }

  /** The value of one digit character. */
  function DigitValue(c: char): nat {
    if IsDecimalDigit(c) then (c as int - '0' as int) as nat
    else if 'a' <= c <= 'f' then (c as int - 'a' as int + 10) as nat
    else if 'A' <= c <= 'F' then (c as int - 'A' as int + 10) as nat
    else 0
  }

  /** The value of a run of digits in `radix`, most significant first. */
  function Value(ds: string, radix: nat): nat
    decreases |ds|
  {
    if ds == [] then 0 else Value(ds[..|ds| - 1], radix) * radix + DigitValue(ds[|ds| - 1])
  }

  /** The first index at or after `i` that is not white space. */
  function SkipSpace(s: string, i: nat): (r: nat)
    requires i <= |s|
    ensures i <= r <= |s|
    ensures forall k :: i <= k < r ==> IsSpace(s[k])
    ensures r < |s| ==> !IsSpace(s[r])
    decreases |s| - i
  {
    if i < |s| && IsSpace(s[i]) then SkipSpace(s, i + 1) else i
  }

  /** The end of the longest run of `radix` digits starting at `i`. */
  function DigitsEnd(s: string, i: nat, radix: nat): (r: nat)
    requires i <= |s|
    ensures i <= r <= |s|
    ensures forall k :: i <= k < r ==> IsDigitIn(s[k], radix)
    ensures r < |s| ==> !IsDigitIn(s[r], radix)
    decreases |s| - i
  {
    if i < |s| && IsDigitIn(s[i], radix) then DigitsEnd(s, i + 1, radix) else i
  }

  /** `Number.parseInt(s)`; `None` is NaN. */
  function ParseInt(s: string): Option<int> {
    var i := SkipSpace(s, 0);
    var negative := i < |s| && s[i] == '-';
    var j := if i < |s| && (s[i] == '-' || s[i] == '+') then i + 1 else i;
    var hex := j + 1 < |s| && s[j] == '0' && (s[j + 1] == 'x' || s[j + 1] == 'X');
    var radix := if hex then 16 else 10;
    var start := if hex then j + 2 else j;
    var end := DigitsEnd(s, start, radix);
    if end == start then None
    else
      var v: int := Value(s[start..end], radix);
      Some(if negative then -v else v)
  }

  /** The decimal rendering of `n`, without leading zeros: the reference `ParseInt` is checked against. */
  function Decimal(n: nat): (r: string)
    ensures |r| > 0 && forall k :: 0 <= k < |r| ==> IsDecimalDigit(r[k])
    decreases n
  {
    var last := [('0' as int + n % 10) as char];
    if n < 10 then last else Decimal(n / 10) + last
  }

  /** The digits of `Decimal(n)` are worth `n`. */
  lemma {:induction false} DecimalValue(n: nat)
    ensures Value(Decimal(n), 10) == n
    decreases n
  {
    var d := Decimal(n);
    if n >= 10 {
      DecimalValue(n / 10);
      assert d[..|d| - 1] == Decimal(n / 10);
    }
  }

  /** A run of white space is skipped whole. */
  lemma {:induction false} SkipSpaceRun(s: string, i: nat, e: nat)
    requires i <= e <= |s|
    requires forall k :: i <= k < e ==> IsSpace(s[k])
    requires e < |s| ==> !IsSpace(s[e])
    ensures SkipSpace(s, i) == e
    decreases |s| - i
  {
    if i < e {
      SkipSpaceRun(s, i + 1, e);
    }
  }

  /** A run of digits is read whole. */
  lemma {:induction false} DigitsRun(s: string, i: nat, e: nat, radix: nat)
    requires i <= e <= |s|
    requires forall k :: i <= k < e ==> IsDigitIn(s[k], radix)
    requires e < |s| ==> !IsDigitIn(s[e], radix)
    ensures DigitsEnd(s, i, radix) == e
    decreases |s| - i
  {
    if i < e {
      DigitsRun(s, i + 1, e, radix);
    }
  }

  /** Input whose first non-blank character is a decimal digit not followed by `x` is read in decimal. */
  lemma {:induction false} ParseUnsignedDecimal(s: string, i: nat, e: nat)
    requires i < e <= |s| && SkipSpace(s, 0) == i
    requires IsDecimalDigit(s[i])
    requires i + 1 < |s| && s[i] == '0' ==> s[i + 1] != 'x' && s[i + 1] != 'X'
    requires DigitsEnd(s, i, 10) == e
    ensures ParseInt(s) == Some(Value(s[i..e], 10))
  {
  }

  /**
   * White space, the decimal rendering of `n`, then anything that neither continues the digits nor
   * turns a lone `0` into a `0x` prefix, parses to `n`: `"  15 minutes"` is 15.
   */
  lemma {:induction false} ParseDecimal(lead: string, n: nat, rest: string)
    requires forall k :: 0 <= k < |lead| ==> IsSpace(lead[k])
    requires rest != [] ==> !IsDecimalDigit(rest[0]) && rest[0] != 'x' && rest[0] != 'X'
    ensures ParseInt(lead + Decimal(n) + rest) == Some(n)
  {
    var d := Decimal(n);
    var s := lead + d + rest;
    var i := |lead|;
    var e := |lead| + |d|;
    assert s[i] == d[0];
    assert forall k :: 0 <= k < i ==> s[k] == lead[k];
    SkipSpaceRun(s, 0, i);
    if i + 1 < |s| && s[i] == '0' {
      if |d| > 1 {
        assert s[i + 1] == d[1];
      } else {
        assert s[i + 1] == rest[0];
      }
    }
    assert forall k :: i <= k < e ==> s[k] == d[k - i];
    assert e < |s| ==> s[e] == rest[0];
    DigitsRun(s, i, e, 10);
    assert s[i..e] == d;
    ParseUnsignedDecimal(s, i, e);
    DecimalValue(n);
  }

  /** A text without a single decimal digit is NaN: an empty field, words, a sign alone. */
  lemma {:induction false} NoDigitsNaN(s: string)
    requires forall k :: 0 <= k < |s| ==> !IsDecimalDigit(s[k])
    ensures ParseInt(s) == None
  {
    var i := SkipSpace(s, 0);
    var j := if i < |s| && (s[i] == '-' || s[i] == '+') then i + 1 else i;
    assert j < |s| ==> !IsDigitIn(s[j], 10);
  }
}
