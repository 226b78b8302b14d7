/**
 * The handful of Python string operations the monitor relies on:
 * `startswith`, `lstrip`, `replace(pat, "")`, `in`, `lower`, `str(int)`,
 * `int(str)` and `isdigit`, restricted to what the bot feeds them.
 * Case mapping and digits are ASCII only.
 */
module Text {
  import opened Wrappers

  predicate StartsWith(s: string, prefix: string)
  {
    |prefix| <= |s| && s[..|prefix|] == prefix
  }

  /** Python's f-string rendering of an optional string: `None` prints as "None". */
  function PyStr(o: Option<string>): string
  {
    match o
    case Some(s) => s
    case None => "None"
  }

  /** Python truthiness of an optional string: present and non-empty. */
  predicate Truthy(o: Option<string>)
  {
    o.Some? && o.value != ""
  }

  /** `s.lstrip(c)` for a one-character argument. */
  function LStrip(s: string, c: char): (r: string)
    ensures |r| <= |s| && r == s[|s| - |r|..]
    ensures r == [] || r[0] != c
    ensures forall i :: 0 <= i < |s| - |r| ==> s[i] == c
  {
    if s != [] && s[0] == c then LStrip(s[1..], c) else s
  }

  /** `sub in s`: some position of `s` starts a copy of `sub`. */
  function Contains(s: string, sub: string): bool
    decreases |s|
  {
    if StartsWith(s, sub) then true
    else if s == [] then false
    else Contains(s[1..], sub)
  }

  ghost predicate OccursAt(s: string, sub: string, i: int)
  {
    0 <= i && i + |sub| <= |s| && s[i..i + |sub|] == sub
  }

  /** The scan in `Contains` finds exactly the occurrences of `sub`. */
  lemma {:induction false} ContainsIff(s: string, sub: string)
    ensures Contains(s, sub) <==> exists i :: OccursAt(s, sub, i)
    decreases |s|
  {
    if StartsWith(s, sub) {
      assert OccursAt(s, sub, 0);
    } else if s == [] {
    } else {
      ContainsIff(s[1..], sub);
      if exists i :: OccursAt(s[1..], sub, i) {
        var i :| OccursAt(s[1..], sub, i);
        assert s[1..][i..i + |sub|] == s[i + 1..i + 1 + |sub|];
        assert OccursAt(s, sub, i + 1);
      }
      if exists i :: OccursAt(s, sub, i) {
        var i :| OccursAt(s, sub, i);
        assert i != 0;
        assert s[1..][i - 1..i - 1 + |sub|] == s[i..i + |sub|];
        assert OccursAt(s[1..], sub, i - 1);
      }
    }
  }

  /** `s.replace(pat, "")`: drops every non-overlapping occurrence of `pat`, scanning left to right. */
  function RemoveAll(s: string, pat: string): (r: string)
    requires pat != []
    ensures |r| <= |s|
    decreases |s|
  {
    if |s| < |pat| then s
    else if s[..|pat|] == pat then RemoveAll(s[|pat|..], pat)
    else [s[0]] + RemoveAll(s[1..], pat)
  }

  /** A string with no occurrence of `pat` is left as it is. */
  lemma {:induction false} RemoveAllAbsent(s: string, pat: string)
    requires pat != [] && !Contains(s, pat)
    ensures RemoveAll(s, pat) == s
    decreases |s|
  {
    if |s| >= |pat| {
      RemoveAllAbsent(s[1..], pat);
      assert [s[0]] + s[1..] == s;
    }
  }

  // ---- ASCII case mapping -------------------------------------------------

  function LowerChar(c: char): char
  {
    if 'A' <= c <= 'Z' then (c as int + 32) as char else c
  }

  /** `s.lower()` restricted to ASCII letters. */
  function Lower(s: string): (r: string)
    ensures |r| == |s|
    ensures forall i :: 0 <= i < |s| ==> r[i] == LowerChar(s[i])
  {
    seq(|s|, i requires 0 <= i < |s| => LowerChar(s[i]))
  }

  predicate IsLower(s: string)
  {
    Lower(s) == s
  }

  /** Lowering twice is lowering once: every lowered string is lower case. */
  lemma LowerIsLower(s: string)
    ensures IsLower(Lower(s))
  {
    var l := Lower(s);
    assert forall i :: 0 <= i < |l| ==> Lower(l)[i] == l[i];
  }

  // ---- Decimal numerals ---------------------------------------------------

  predicate IsDigit(c: char)
  {
    '0' <= c <= '9'
  }

  function DigitChar(d: nat): (c: char)
    requires d < 10
    ensures IsDigit(c) && c as int - '0' as int == d
  {
    ('0' as int + d) as char
  }

  function DigitValue(c: char): (d: nat)
    requires IsDigit(c)
    ensures d < 10 && DigitChar(d) == c
  {
    c as int - '0' as int
  }

  /** `s.isdigit()` for ASCII: non-empty and all digits. */
  predicate IsDigits(s: string)
  {
    |s| > 0 && forall i :: 0 <= i < |s| ==> IsDigit(s[i])
  }

  /** `str(n)` for a non-negative integer: its shortest decimal numeral. */
  function NatToString(n: nat): (s: string)
    ensures IsDigits(s)
    ensures s[0] == '0' <==> n == 0
  {
    if n < 10 then [DigitChar(n)] else NatToString(n / 10) + [DigitChar(n % 10)]
  }

  /** `str(i)` for any integer. */
  function IntToString(i: int): (s: string)
    ensures i < 0 <==> (|s| > 0 && s[0] == '-')
    ensures '/' !in s
  {
    if i < 0 then "-" + NatToString(-i) else NatToString(i)
  }

  /** The value of a digit string, most significant digit first. */
  function ParseDigits(s: string): nat
    requires forall i :: 0 <= i < |s| ==> IsDigit(s[i])
  {
    if s == [] then 0 else ParseDigits(s[..|s| - 1]) * 10 + DigitValue(s[|s| - 1])
  }

  /** Reading back the numeral of `n` gives `n`. */
  lemma {:induction false} ParseNatToString(n: nat)
    ensures ParseDigits(NatToString(n)) == n
  {
    var s := NatToString(n);
    if n >= 10 {
      ParseNatToString(n / 10);
      assert s[..|s| - 1] == NatToString(n / 10);
    }
  }

  /**
   * `int(s)` on already-stripped text: an optional sign followed by ASCII
   * digits; anything else is the ValueError case.
   */
  function ParseInt(s: string): (r: Option<int>)
    ensures r.Some? ==> |s| > 0 && (IsDigit(s[0]) || s[0] == '-' || s[0] == '+')
    ensures IsDigits(s) ==> r == Some(ParseDigits(s))
  {
    if |s| > 1 && s[0] == '-' && IsDigits(s[1..]) then Some(0 - ParseDigits(s[1..]) as int)
    else if |s| > 1 && s[0] == '+' && IsDigits(s[1..]) then Some(ParseDigits(s[1..]))
    else if IsDigits(s) then Some(ParseDigits(s))
    else None
  }

  /** `int(str(i)) == i`. */
  lemma ParseIntToString(i: int)
    ensures ParseInt(IntToString(i)) == Some(i)
  {
    if i < 0 {
      ParseNatToString(-i);
      assert IntToString(i)[1..] == NatToString(-i);
    } else {
      ParseNatToString(i);
    }
  }

  function Pow10(d: nat): (p: nat)
    ensures p >= 1
  {
    if d == 0 then 1 else 10 * Pow10(d - 1)
  }

  /** A number below `10^d` has a numeral of at most d digits. */
  lemma {:induction false} NumeralLength(n: nat, d: nat)
    ensures 1 <= d && n < Pow10(d) ==> |NatToString(n)| <= d
  {
    if 1 <= d && n < Pow10(d) && n >= 10 {
      assert d >= 2;
      assert n / 10 < Pow10(d - 1);
      NumeralLength(n / 10, d - 1);
    }
  }

  /**
   * Writing the digits of `c` after those of `a`: when `c` has exactly `d`
   * digits, the numeral of `a * 10^d + c` is the numeral of `a` followed by
   * the numeral of `c`.
   */
  lemma {:induction false} NatToStringAppend(a: nat, c: nat, d: nat)
    requires a > 0 && d >= 1 && Pow10(d - 1) <= c < Pow10(d)
    ensures NatToString(a * Pow10(d) + c) == NatToString(a) + NatToString(c)
    decreases d
  {
    var p := Pow10(d - 1);
    var n := a * Pow10(d) + c;
    ShiftDecimal(a, c, p);
    if d == 1 {
      assert n / 10 == a && n % 10 == c;
    } else {
      assert Pow10(d - 2) <= c / 10 < Pow10(d - 1) by {
        assert p == 10 * Pow10(d - 2);
      }
      NatToStringAppend(a, c / 10, d - 1);
      assert c >= 10;
    }
  }

  /** The arithmetic behind `NatToStringAppend`: dropping the last digit of `a * 10p + c`. */
  lemma ShiftDecimal(a: nat, c: nat, p: nat)
    requires a > 0 && p >= 1 && c < 10 * p
    ensures a * (10 * p) + c >= 10
    ensures (a * (10 * p) + c) / 10 == a * p + c / 10
    ensures (a * (10 * p) + c) % 10 == c % 10
  {
    assert a * (10 * p) == 10 * (a * p);
    assert a * p >= 1;
  }

  /**
   * `s.split(sep, 1)` as a pair: the text before the first `sep` and, when
   * there is one, the text after it.
   */
  function SplitFirst(s: string, sep: char): (string, Option<string>)
  {
    if s == [] then ([], None)
    else if s[0] == sep then ([], Some(s[1..]))
    else
      var (head, tail) := SplitFirst(s[1..], sep);
      ([s[0]] + head, tail)
  }

  /** Splitting `a + [sep] + b` at the first `sep` recovers `a` and `b` when `a` has none. */
  lemma {:induction false} SplitFirstJoin(a: string, sep: char, b: string)
    requires sep !in a
    ensures SplitFirst(a + [sep] + b, sep) == (a, Some(b))
  {
    if a != [] {
      SplitFirstJoin(a[1..], sep, b);
      assert (a + [sep] + b)[1..] == a[1..] + [sep] + b;
      assert [a[0]] + a[1..] == a;
    } else {
      assert (a + [sep] + b)[1..] == b;
    }
  }
}
