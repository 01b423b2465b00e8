/** Decimal numerals: how they are printed, and how an unsigned 64-bit number is parsed from text. */
module Decimal {
  import opened Base

  function Digit(d: nat): (c: char)
    requires d < 10
    ensures IsDigit(c) && DigitValue(c) == d
  {
    ('0' as int + d) as char
  }

  predicate IsDigit(c: char) { '0' <= c <= '9' }

  function DigitValue(c: char): nat
    requires IsDigit(c)
  {
    c as int - '0' as int
  }

  function Dec(n: nat): string {
    if n < 10 then [Digit(n)] else Dec(n / 10) + [Digit(n % 10)]
  }

  /** Checked accumulation, left to right; `None` on a character that is no digit or on overflow. */
  function ParseDigits(s: string, acc: nat): Option<nat> {
    if s == "" then Some(acc)
    else if !IsDigit(s[0]) || acc * 10 + DigitValue(s[0]) > U64_MAX then None
    else ParseDigits(s[1..], acc * 10 + DigitValue(s[0]))
  }

  /** `str::parse::<u64>`: one leading plus sign is accepted, the empty text is not. */
  function ParseU64(s: string): Option<nat> {
    var digits := if s != "" && s[0] == '+' then s[1..] else s;
    if digits == "" then None else ParseDigits(digits, 0)
  }

  lemma {:induction false} DecShape(n: nat)
    ensures Dec(n) != "" && forall i :: 0 <= i < |Dec(n)| ==> IsDigit(Dec(n)[i])
  {
    if n >= 10 { DecShape(n / 10); }
  }

  lemma {:induction false} ParseSnoc(s: string, c: char, acc: nat)
    requires IsDigit(c)
    ensures ParseDigits(s + [c], acc) ==
            match ParseDigits(s, acc)
            case None => None
            case Some(v) => if v * 10 + DigitValue(c) > U64_MAX then None else Some(v * 10 + DigitValue(c))
  {
    if s == "" {
      assert "" + [c] == [c];
    } else {
      assert (s + [c])[1..] == s[1..] + [c];
      if IsDigit(s[0]) && acc * 10 + DigitValue(s[0]) <= U64_MAX {
        ParseSnoc(s[1..], c, acc * 10 + DigitValue(s[0]));
      }
    }
  }

  lemma {:induction false} ParseDigitsOfDec(n: nat)
    ensures ParseDigits(Dec(n), 0) == if n <= U64_MAX then Some(n) else None
  {
    if n < 10 {
      assert Dec(n)[1..] == "";
    } else {
      ParseDigitsOfDec(n / 10);
      ParseSnoc(Dec(n / 10), Digit(n % 10), 0);
    }
  }

  /** Parsing undoes printing, exactly as far as 64 bits reach. */
  lemma ParseOfDec(n: nat)
    ensures ParseU64(Dec(n)) == if n <= U64_MAX then Some(n) else None
  {
    DecShape(n);
    ParseDigitsOfDec(n);
  }

  /** What is parsed always fits in 64 bits. */
  lemma {:induction false} ParseDigitsFits(s: string, acc: nat)
    requires acc <= U64_MAX
    ensures ParseDigits(s, acc).Some? ==> ParseDigits(s, acc).value <= U64_MAX
  {
    if s != "" && IsDigit(s[0]) && acc * 10 + DigitValue(s[0]) <= U64_MAX {
      ParseDigitsFits(s[1..], acc * 10 + DigitValue(s[0]));
    }
  }

  lemma ParseFits(s: string)
    ensures ParseU64(s).Some? ==> ParseU64(s).value <= U64_MAX
  {
    ParseDigitsFits(if s != "" && s[0] == '+' then s[1..] else s, 0);
  }

  /** Different numbers print differently. */
  lemma DecInjective(m: nat, n: nat)
    requires Dec(m) == Dec(n)
    ensures m == n
    decreases m
  {
    if m >= 10 && n >= 10 {
      assert Dec(m)[..|Dec(m)| - 1] == Dec(m / 10);
      assert Dec(n)[..|Dec(n)| - 1] == Dec(n / 10);
      assert Dec(m)[|Dec(m)| - 1] == Digit(m % 10);
      assert Dec(n)[|Dec(n)| - 1] == Digit(n % 10);
      DecInjective(m / 10, n / 10);
      assert DigitValue(Digit(m % 10)) == DigitValue(Digit(n % 10));
    } else {
      DecShape(m / 10);
      DecShape(n / 10);
      assert DigitValue(Dec(m)[0]) == DigitValue(Dec(n)[0]);
    }
  }

  /** Only digits, after at most one plus sign, are a number. */
  lemma {:induction false} ParseDigitsOnly(s: string, acc: nat)
    requires exists i :: 0 <= i < |s| && !IsDigit(s[i])
    ensures ParseDigits(s, acc) == None
  {
    if IsDigit(s[0]) && acc * 10 + DigitValue(s[0]) <= U64_MAX {
      var i :| 0 <= i < |s| && !IsDigit(s[i]);
      assert s[1..][i - 1] == s[i];
      ParseDigitsOnly(s[1..], acc * 10 + DigitValue(s[0]));
    }
  }

  lemma ParseRejects(s: string)
    requires s == "" || s == "+" || exists i :: 0 <= i < |s| && !IsDigit(s[i]) && (i == 0 ==> s[0] != '+')
    ensures ParseU64(s) == None
  {
    if s != "" && s != "+" {
      var i :| 0 <= i < |s| && !IsDigit(s[i]) && (i == 0 ==> s[0] != '+');
      if s[0] == '+' {
        assert s[1..][i - 1] == s[i];
        ParseDigitsOnly(s[1..], 0);
      } else {
        ParseDigitsOnly(s, 0);
      }
    }
  }

  /** A plus sign and leading zeros change nothing. */
  lemma ParsePadded(n: nat, zeros: string)
    requires forall i :: 0 <= i < |zeros| ==> zeros[i] == '0'
    ensures ParseU64(zeros + Dec(n)) == ParseU64(Dec(n))
    ensures ParseU64("+" + (zeros + Dec(n))) == ParseU64(Dec(n))
  {
    DecShape(n);
    ParseZeros(zeros, Dec(n));
    var s := zeros + Dec(n);
    assert s[0] == if zeros == "" then Dec(n)[0] else '0';
    assert ("+" + s)[1..] == s;
  }

  lemma {:induction false} ParseZeros(zeros: string, s: string)
    requires forall i :: 0 <= i < |zeros| ==> zeros[i] == '0'
    ensures ParseDigits(zeros + s, 0) == ParseDigits(s, 0)
  {
    if zeros == "" {
      assert zeros + s == s;
    } else {
      assert (zeros + s)[1..] == zeros[1..] + s && DigitValue('0') == 0;
      ParseZeros(zeros[1..], s);
    }
  }
}
