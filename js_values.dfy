/**
 * Cell values as the spreadsheet reader hands them over, and JavaScript's
 * `String(v)` conversion, which is also how a value becomes a property key
 * (`projects[project]`) and how it is spliced into a template (`${batch}`).
 */
module JsValues {
  import opened Wrappers

  /** A cell value: text or an integer. An empty cell is an absent property. */
  datatype Value = Str(s: string) | Int(n: int)

  predicate IsDigit(c: char) { '0' <= c <= '9' }

  predicate AllDigits(s: string) { forall i :: 0 <= i < |s| ==> IsDigit(s[i]) }

  function DigitChar(d: nat): (c: char)
    requires d < 10
    ensures IsDigit(c) && c as int - '0' as int == d
  {
    (d + '0' as int) as char
  }

  /** The decimal numeral of `n`, most significant digit first. */
  function NatString(n: nat): (s: string)
    ensures |s| >= 1 && AllDigits(s)
    ensures n > 0 <==> s[0] != '0'
    ensures n < 10 <==> |s| == 1
  {
    if n < 10 then [DigitChar(n)] else NatString(n / 10) + [DigitChar(n % 10)]
  }

  /** The number a string of decimal digits denotes. */
  function DigitsValue(s: string): nat
    requires AllDigits(s)
  {
    if s == [] then 0 else DigitsValue(s[..|s| - 1]) * 10 + (s[|s| - 1] as int - '0' as int)
  }

  /** `String(n)` for an integer `n`. */
  function IntString(n: int): string
  {
    if n < 0 then "-" + NatString(-n) else NatString(n)
  }

  /** `String(v)` for a property value that may be `undefined`. */
  function ToKey(v: Option<Value>): string
  {
    match v
    case None => "undefined"
    case Some(Str(s)) => s
    case Some(Int(n)) => IntString(n)
  }

  /** Reading the numeral of `n` gives `n` back. */
  lemma {:induction false} NatStringRoundTrip(n: nat)
    ensures DigitsValue(NatString(n)) == n
  {
    if n >= 10 {
      NatStringRoundTrip(n / 10);
      var s := NatString(n);
      assert s[..|s| - 1] == NatString(n / 10);
    }
  }

  /** Distinct naturals have distinct numerals. */
  lemma NatStringInjective(m: nat, n: nat)
    requires NatString(m) == NatString(n)
    ensures m == n
  {
    NatStringRoundTrip(m);
    NatStringRoundTrip(n);
  }

  /** `String(n)` starts with a minus sign exactly for negative `n`, followed by the numeral of `-n`. */
  lemma IntStringSign(n: int)
    ensures n < 0 <==> IntString(n)[0] == '-'
    ensures n < 0 ==> IntString(n)[1..] == NatString(-n)
  {
  }

  /** Distinct integers give distinct keys: numbers never collide with each other. */
  lemma IntStringInjective(m: int, n: int)
    requires IntString(m) == IntString(n)
    ensures m == n
  {
    IntStringSign(m);
    IntStringSign(n);
    if m < 0 {
      NatStringInjective(-m, -n);
    } else {
      NatStringInjective(m, n);
    }
  }

  /** The number 999 and the text "999" name the same property. */
  lemma NumberAndTextCollide()
    ensures ToKey(Some(Int(999))) == ToKey(Some(Str("999")))
  {
    assert NatString(999) == NatString(99) + ['9'];
    assert NatString(99) == NatString(9) + ['9'];
  }
}
