/** Decimal text, as the program prints and reads it: strconv.Itoa and the "%d" verb, the
    strconv.Atoi reader, and the unchecked digit loop of parseDial.  A Go string is a byte
    string; one `char` stands for one byte throughout the project. */
module Decimal {
  import opened Wrappers

  predicate IsDigit(c: char) { '0' <= c <= '9' }

  predicate AllDigits(s: string) { forall i :: 0 <= i < |s| ==> IsDigit(s[i]) }

  function DigitChar(d: nat): char
    requires d < 10
  {
    (d + 48) as char
  }

  /** int(c - '0') in Go: negative for characters below '0'. */
  function DigitValue(c: char): int { c as int - 48 }

  function Digits(n: nat): string {
    if n < 10 then [DigitChar(n)] else Digits(n / 10) + [DigitChar(n % 10)]
  }

  function Itoa(n: int): string {
    if n < 0 then "-" + Digits(-n) else Digits(n)
  }

  /** The accumulator of parseDial: port = port*10 + int(c-'0'), over any characters. */
  function Accumulate(s: string): int {
    if s == "" then 0 else Accumulate(s[..|s| - 1]) * 10 + DigitValue(s[|s| - 1])
  }

  /** strconv.Atoi on unbounded integers: an optional sign, then one or more digits. */
  function Atoi(s: string): Option<int> {
    var body := if s != "" && (s[0] == '-' || s[0] == '+') then s[1..] else s;
    if body == "" || !AllDigits(body) then None
    else Some(if s[0] == '-' then -Accumulate(body) else Accumulate(body))
  }

  lemma {:induction false} DigitsShape(n: nat)
    ensures Digits(n) != "" && AllDigits(Digits(n))
  {
    if n >= 10 {
      DigitsShape(n / 10);
    }
  }

  lemma {:induction false} AccumulateDigits(n: nat)
    ensures Accumulate(Digits(n)) == n
  {
    if n < 10 {
      assert Digits(n)[..0] == "";
    } else {
      AccumulateDigits(n / 10);
      assert Digits(n)[..|Digits(n)| - 1] == Digits(n / 10);
    }
  }

  /** Reading back a printed integer gives the integer, whatever its sign. */
  lemma AtoiItoa(n: int)
    ensures Atoi(Itoa(n)) == Some(n)
  {
    var m := if n < 0 then -n else n;
    DigitsShape(m);
    AccumulateDigits(m);
    if n < 0 {
      assert Itoa(n)[1..] == Digits(m);
    }
  }

  lemma ItoaInjective(m: int, n: int)
    requires Itoa(m) == Itoa(n)
    ensures m == n
  {
    AtoiItoa(m);
    AtoiItoa(n);
  }

  /** No printed integer holds a separator character. */
  lemma ItoaChars(n: int, c: char)
    requires c in Itoa(n)
    ensures IsDigit(c) || c == '-'
  {
    DigitsShape(if n < 0 then -n else n);
  }

  function Pow10(k: nat): nat { if k == 0 then 1 else 10 * Pow10(k - 1) }

  /** A leading '-' reaches parseDial's loop as the "digit" -3, shifted left by the rest. */
  lemma {:induction false} AccumulateMinus(s: string)
    ensures Accumulate("-" + s) == -3 * Pow10(|s|) + Accumulate(s)
  {
    var t := "-" + s;
    if s == "" {
      assert t[..0] == "";
      assert DigitValue('-') == -3;
    } else {
      assert t[..|t| - 1] == "-" + s[..|s| - 1];
      AccumulateMinus(s[..|s| - 1]);
    }
  }

  lemma {:induction false} AccumulateBound(s: string)
    requires AllDigits(s)
    ensures 0 <= Accumulate(s) < Pow10(|s|)
  {
    if s != "" {
      AccumulateBound(s[..|s| - 1]);
    }
  }

  /** The printed form of a negative number is never read back by parseDial's loop. */
  lemma AccumulateItoaExact(n: int)
    ensures Accumulate(Itoa(n)) == n <==> 0 <= n
  {
    if n < 0 {
      DigitsShape(-n);
      AccumulateDigits(-n);
      AccumulateMinus(Digits(-n));
      AccumulateBound(Digits(-n));
    } else {
      AccumulateDigits(n);
    }
  }
}
