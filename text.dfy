/**
 * The string operations of Python that the bot relies on: `str(n)` for an
 * integer, `int(s)` on a decimal literal, `s.split(sep)` and `sep.join(parts)`
 * for a one-character separator.
 */
module Text {
  import opened Wrappers

  predicate IsDigit(c: char) {
    '0' <= c <= '9'
  }

  function DigitChar(d: nat): (c: char)
    requires d < 10
    ensures IsDigit(c)
  {
    ('0' as int + d) as char
  }

  function DigitValue(c: char): (d: nat)
    requires IsDigit(c)
    ensures d < 10 && DigitChar(d) == c
  {
    c as int - '0' as int
  }

  /** A non-empty run of decimal digits. */
  predicate IsDigits(s: string) {
    |s| >= 1 && forall i :: 0 <= i < |s| ==> IsDigit(s[i])
  }

  /** The syntax `int(s)` accepts here: decimal digits, optionally after one '-'. */
  predicate IsIntLiteral(s: string) {
    IsDigits(s) || (|s| >= 2 && s[0] == '-' && IsDigits(s[1..]))
  }

  /**
   * CPython's default bound on decimal conversions (`sys.get_int_max_str_digits()`):
   * `int(s)` and `str(n)` raise ValueError beyond this many digits.
   */
  const MaxStrDigits: nat := 4300

  /** The number of digits in a literal: its length without a leading '-'. */
  function SignlessLength(s: string): nat {
    if |s| > 0 && s[0] == '-' then |s| - 1 else |s|
  }

  /** What `int(s)` accepts: an integer literal of at most `MaxStrDigits` digits. */
  predicate ParsesAsInt(s: string) {
    IsIntLiteral(s) && SignlessLength(s) <= MaxStrDigits
  }

  /** An integer literal holds digits and a sign only, so it never holds a separator. */
  lemma IntLiteralExcludes(s: string, c: char)
    requires IsIntLiteral(s) && c != '-' && !IsDigit(c)
    ensures c !in s
  {
  }

  /** `str(n)` for a non-negative integer: no leading zeros. */
  function NatToString(n: nat): (s: string)
    ensures IsDigits(s)
    ensures s[0] == '0' ==> n == 0 && |s| == 1
  {
    if n < 10 then [DigitChar(n)] else NatToString(n / 10) + [DigitChar(n % 10)]
  }

  /** `str(n)` for any integer. */
  function IntToString(n: int): (s: string)
    ensures IsIntLiteral(s)
    ensures s[0] == '-' <==> n < 0
  {
    if n < 0 then "-" + NatToString(-n) else NatToString(n)
  }

  /** The value of a run of decimal digits, most significant first. */
  function DigitsValue(s: string): nat
    requires forall i :: 0 <= i < |s| ==> IsDigit(s[i])
  {
    if s == [] then 0 else DigitsValue(s[..|s| - 1]) * 10 + DigitValue(s[|s| - 1])
  }

  /** `int(s)`; `None` stands for the ValueError it raises. */
  function ParseInt(s: string): (r: Option<int>)
    ensures r.Some? <==> ParsesAsInt(s)
    ensures r.Some? && r.value < 0 ==> s[0] == '-'
  {
    if SignlessLength(s) > MaxStrDigits then None
    else if IsDigits(s) then Some(DigitsValue(s))
    else if |s| >= 2 && s[0] == '-' && IsDigits(s[1..]) then Some(0 - DigitsValue(s[1..]) as int)
    else None
  }

  lemma {:induction false} DigitsValueOfNatToString(n: nat)
    ensures DigitsValue(NatToString(n)) == n
  {
    var s := NatToString(n);
    if n >= 10 {
      assert s[..|s| - 1] == NatToString(n / 10);
      DigitsValueOfNatToString(n / 10);
    }
  }

  /** `str(n)` succeeds: its digits are within the conversion bound. */
  predicate WithinStrDigits(n: int) {
    SignlessLength(IntToString(n)) <= MaxStrDigits
  }

  function Pow10(k: nat): (p: nat)
    ensures p >= 1
  {
    if k == 0 then 1 else 10 * Pow10(k - 1)
  }

  /** A natural below `10^k` is written with at most `k` digits. */
  lemma {:induction false} NatToStringLength(n: nat, k: nat)
    requires 1 <= k && n < Pow10(k)
    ensures |NatToString(n)| <= k
  {
    if n >= 10 {
      assert k >= 2;
      NatToStringLength(n / 10, k - 1);
    }
  }

  /** An integer of magnitude below `10^k`, for `k` within the bound, can be converted by `str`. */
  lemma ShortIntegersConvert(n: int, k: nat)
    requires 1 <= k <= MaxStrDigits && -(Pow10(k) as int) < n < Pow10(k)
    ensures WithinStrDigits(n)
  {
    if n < 0 {
      NatToStringLength(-n, k);
    } else {
      NatToStringLength(n, k);
      assert IsDigit(IntToString(n)[0]);
    }
  }

  /** `int(str(n)) == n` for every integer `str` can convert. */
  lemma ParseIntToString(n: int)
    requires WithinStrDigits(n)
    ensures ParseInt(IntToString(n)) == Some(n)
  {
    assert SignlessLength(IntToString(n)) <= MaxStrDigits;
    if n < 0 {
      var t := NatToString(-n);
      var s := "-" + t;
      assert IntToString(n) == s && s[1..] == t;
      assert !IsDigits(s) by {
        assert !IsDigit(s[0]);
      }
      DigitsValueOfNatToString(-n);
      assert ParseInt(s) == Some(0 - DigitsValue(t) as int);
    } else {
      assert IntToString(n) == NatToString(n);
      DigitsValueOfNatToString(n);
    }
  }

  /** The index of the first occurrence of `c` in `s`. */
  function IndexOf(s: string, c: char): (i: nat)
    requires c in s
    ensures i < |s| && s[i] == c && c !in s[..i]
  {
    if s[0] == c then 0 else 1 + IndexOf(s[1..], c)
  }

  /** `sep.join(parts)`: the first piece opens the result. */
  function Join(parts: seq<string>, sep: char): (s: string)
    ensures parts == [] ==> s == ""
    ensures |parts| >= 1 ==> parts[0] <= s
  {
    if parts == [] then ""
    else if |parts| == 1 then parts[0]
    else parts[0] + [sep] + Join(parts[1..], sep)
  }

  /** Joining peels off the last piece as well as the first. */
  lemma {:induction false} JoinSnoc(parts: seq<string>, sep: char)
    requires |parts| >= 2
    ensures Join(parts, sep) == Join(parts[..|parts| - 1], sep) + [sep] + parts[|parts| - 1]
  {
    if |parts| > 2 {
      var n := |parts|;
      JoinSnoc(parts[1..], sep);
      assert parts[1..][..n - 2] == parts[..n - 1][1..];
      assert parts[1..][n - 2] == parts[n - 1];
    } else {
      assert parts[..1] == [parts[0]];
    }
  }

  /** `s.split(sep)`: the pieces between separators, never an empty list. */
  function Split(s: string, sep: char): (parts: seq<string>)
    ensures |parts| >= 1
    ensures forall i :: 0 <= i < |parts| ==> sep !in parts[i]
    ensures Join(parts, sep) == s
    decreases |s|
  {
    if sep !in s then [s]
    else
      var i := IndexOf(s, sep);
      var rest := Split(s[i + 1..], sep);
      var parts := [s[..i]] + rest;
      assert parts[1..] == rest;
      assert s == s[..i] + [sep] + s[i + 1..];
      parts
  }

  /** A separator-free piece followed by a separator splits off as the first part. */
  lemma SplitCons(head: string, tail: string, sep: char)
    requires sep !in head
    ensures Split(head + [sep] + tail, sep) == [head] + Split(tail, sep)
  {
    var s := head + [sep] + tail;
    assert s[|head|] == sep;
    var k := IndexOf(s, sep);
    assert k == |head|;
    assert s[..k] == head;
    assert s[k + 1..] == tail;
  }

  /** Splitting a join of separator-free pieces gives the pieces back. */
  lemma {:induction false} SplitJoin(parts: seq<string>, sep: char)
    requires |parts| >= 1
    requires forall i :: 0 <= i < |parts| ==> sep !in parts[i]
    ensures Split(Join(parts, sep), sep) == parts
  {
    if |parts| > 1 {
      SplitCons(parts[0], Join(parts[1..], sep), sep);
      SplitJoin(parts[1..], sep);
    }
  }
}
