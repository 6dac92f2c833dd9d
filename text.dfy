/** Character-level helpers: the lower-casing applied to typed words and keys,
    and the decimal rendering of integers used inside f-strings. */
module Text {
  import opened Outcomes

  /** Lower case of one character. Only 'A'..'Z' are mapped; the keywords and
      keys compared afterwards are all ASCII. */
  function LowerChar(c: char): char
  {
    if 'A' <= c <= 'Z' then (c as int - 'A' as int + 'a' as int) as char else c
  }

  /** Lower case of a string, character by character. */
  function Lower(s: string): (r: string)
    ensures |r| == |s|
    ensures forall i :: 0 <= i < |s| ==> r[i] == LowerChar(s[i])
  {
    if s == [] then [] else [LowerChar(s[0])] + Lower(s[1..])
  }

  /** Lower-casing twice is lower-casing once. */
  lemma LowerIdempotent(s: string)
    ensures Lower(Lower(s)) == Lower(s)
  {
    assert forall i :: 0 <= i < |s| ==> LowerChar(LowerChar(s[i])) == LowerChar(s[i]);
  }

  predicate IsDigit(c: char)
  {
    '0' <= c <= '9'
  }

  predicate AllDigits(s: string)
  {
    forall i :: 0 <= i < |s| ==> IsDigit(s[i])
  }

  /** The character of one decimal digit. */
  function DigitChar(d: nat): (c: char)
    requires d < 10
    ensures IsDigit(c) && c as int - '0' as int == d
  {
    ('0' as int + d) as char
  }

  /** The value of a digit string, most significant digit first. */
  function DigitsValue(s: string): nat
    requires AllDigits(s)
  {
    if s == [] then 0 else 10 * DigitsValue(s[..|s| - 1]) + (s[|s| - 1] as int - '0' as int)
  }

  /** Decimal rendering of a natural number without leading zeros, as Python's
      str() gives it. */
  function NatToString(n: nat): (r: string)
    ensures |r| > 0 && AllDigits(r)
    decreases n
  {
    if n < 10 then [DigitChar(n)] else NatToString(n / 10) + [DigitChar(n % 10)]
  }

  /** Reading the rendered digits back gives the number. */
  lemma {:induction false} NatToStringRoundTrip(n: nat)
    ensures DigitsValue(NatToString(n)) == n
    decreases n
  {
    if n >= 10 {
      NatToStringRoundTrip(n / 10);
      var s := NatToString(n);
      assert s[..|s| - 1] == NatToString(n / 10);
    }
  }

  /** Distinct naturals render differently. */
  lemma NatToStringInjective(a: nat, b: nat)
    requires NatToString(a) == NatToString(b)
    ensures a == b
  {
    NatToStringRoundTrip(a);
    NatToStringRoundTrip(b);
  }

  /** Decimal rendering of an integer, with a leading '-' when negative. */
  function IntToString(i: int): (r: string)
  {
    if i < 0 then "-" + NatToString(-i) else NatToString(i)
  }

  /** Reads back what IntToString writes; None for anything else. */
  function ParseInt(s: string): Option<int>
  {
    if |s| > 0 && s[0] == '-' && AllDigits(s[1..]) then Some(-(DigitsValue(s[1..]) as int))
    else if AllDigits(s) then Some(DigitsValue(s) as int)
    else None
  }

  /** The rendering of an integer is read back as that integer, and never
      contains a space, so a reader can find where the number ends. */
  lemma IntToStringRoundTrip(i: int)
    ensures ParseInt(IntToString(i)) == Some(i)
    ensures |IntToString(i)| > 0
    ensures forall k :: 0 <= k < |IntToString(i)| ==> IntToString(i)[k] != ' '
  {
    if i < 0 {
      NatToStringRoundTrip(-i);
      assert IntToString(i)[1..] == NatToString(-i);
    } else {
      NatToStringRoundTrip(i);
    }
    NoSpaceInNumber(i);
  }

  lemma NoSpaceInNumber(i: int)
    ensures forall k :: 0 <= k < |IntToString(i)| ==> IntToString(i)[k] != ' '
  {
    var r := IntToString(i);
    forall k | 0 <= k < |r| ensures r[k] != ' ' {
      if i < 0 && k > 0 {
        assert r[k] == NatToString(-i)[k - 1];
      }
    }
  }

  /** The position of the first space in x, or |x| when there is none. */
  function FirstSpace(x: string): nat
  {
    if x == [] then 0 else if x[0] == ' ' then 0 else 1 + FirstSpace(x[1..])
  }

  lemma {:induction false} FirstSpaceAfterWord(d: string, s: string)
    requires forall k :: 0 <= k < |d| ==> d[k] != ' '
    requires |s| > 0 && s[0] == ' '
    ensures FirstSpace(d + s) == |d|
  {
    if d != [] {
      assert (d + s)[1..] == d[1..] + s;
      FirstSpaceAfterWord(d[1..], s);
    }
  }

  /** A word without spaces followed by text starting with a space can be cut
      apart again at the first space. */
  lemma SplitAtSpace(da: string, sa: string, db: string, sb: string)
    requires forall k :: 0 <= k < |da| ==> da[k] != ' '
    requires forall k :: 0 <= k < |db| ==> db[k] != ' '
    requires |sa| > 0 && sa[0] == ' ' && |sb| > 0 && sb[0] == ' '
    requires da + sa == db + sb
    ensures da == db && sa == sb
  {
    FirstSpaceAfterWord(da, sa);
    FirstSpaceAfterWord(db, sb);
    assert da == (da + sa)[..|da|];
    assert db == (db + sb)[..|db|];
    assert sa == (da + sa)[|da|..];
    assert sb == (db + sb)[|db|..];
  }
}
