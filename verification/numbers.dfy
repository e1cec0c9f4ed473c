/** The integer text forms the codec uses: `fmt`'s `%v` for writing an
    `IntValue` and `strconv.Atoi` for reading one (xmlrpc/common.go:62-72).
    Go's `int` is 32 bits here, so `Atoi` rejects text outside that range. */
module Numbers {
  import opened Values

  predicate IsDigit(c: char) {
    '0' <= c <= '9'
  }

  predicate AllDigits(s: string) {
    forall i | 0 <= i < |s| :: IsDigit(s[i])
  }

  function DigitChar(d: nat): char
    requires d < 10
  {
    ('0' as int + d) as char
  }

  /** Decimal digits of `n`, most significant first, without leading zeros. */
  function Digits(n: nat): (s: string)
    ensures |s| > 0 && AllDigits(s)
  {
    if n < 10 then [DigitChar(n)] else Digits(n / 10) + [DigitChar(n % 10)]
  }

  /** The value of a run of decimal digits. */
  function DigitsValue(s: string): nat
    requires AllDigits(s)
  {
    if s == [] then 0 else DigitsValue(s[..|s| - 1]) * 10 + (s[|s| - 1] as int - '0' as int)
  }

  /** `%v` of an integer: a minus sign for negatives, then the digits. */
  function FormatInt(i: int): string {
    if i < 0 then "-" + Digits(-i) else Digits(i)
  }

  /** `strconv.Atoi`: an optional `+` or `-`, then one or more decimal
      digits, whose value must fit in a 32-bit `int`. */
  function Atoi(s: string): Option<int32> {
    if s == [] then None
    else
      var digits := if s[0] == '-' || s[0] == '+' then s[1..] else s;
      if digits == [] || !AllDigits(digits) then None
      else
        var value := DigitsValue(digits) as int;
        var n := if s[0] == '-' then -value else value;
        if MinInt32 <= n <= MaxInt32 then Some(n) else None
  }

  lemma {:induction false} DigitsValueOfDigits(n: nat)
    ensures DigitsValue(Digits(n)) == n
  {
    if n >= 10 {
      var s := Digits(n);
      DigitsValueOfDigits(n / 10);
      assert s[..|s| - 1] == Digits(n / 10);
      assert s[|s| - 1] == DigitChar(n % 10);
    }
  }

  /** Reading back what `%v` wrote gives the same integer. */
  lemma AtoiFormatInt(i: int32)
    ensures Atoi(FormatInt(i)) == Some(i)
  {
    var s := FormatInt(i);
    if i < 0 {
      DigitsValueOfDigits(-(i as int));
      assert s[0] == '-' && s[1..] == Digits(-(i as int));
    } else {
      DigitsValueOfDigits(i);
      assert s[0] != '-' && s[0] != '+';
    }
  }

  /** Text that is not an optionally signed run of digits is refused. */
  lemma AtoiRejects(s: string)
    requires s == [] || (s[0] != '-' && s[0] != '+' && !AllDigits(s)) ||
             ((s[0] == '-' || s[0] == '+') && (|s| == 1 || !AllDigits(s[1..])))
    ensures Atoi(s) == None
  {
  }
}
