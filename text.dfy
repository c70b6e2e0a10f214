/**
 * The string operations the client applies to its input fields, `str.count`
 * and `int()` on the text of a field, and `Fields` (Python's `str.split`),
 * which the client does not call: it is a reference reading of the address
 * check, used to state what that check accepts.
 */
module Text {
  import opened Wrappers

  /** Number of occurrences of `c` in `s` (Python's `s.count(c)` for one character). */
  function CountChar(s: string, c: char): (n: nat)
    ensures n <= |s|
    ensures n == 0 <==> forall i :: 0 <= i < |s| ==> s[i] != c
  {
    if s == [] then 0
    else (if s[0] == c then 1 else 0) + CountChar(s[1..], c)
  }

  /** The count is the character's multiplicity in the text. */
  lemma {:induction false} CountIsMultiplicity(s: string, c: char)
    ensures CountChar(s, c) == multiset(s)[c]
    decreases s
  {
    if s != [] {
      CountIsMultiplicity(s[1..], c);
      assert s == [s[0]] + s[1..];
    }
  }

  /** The pieces of `s` between occurrences of `sep` (Python's `s.split(sep)`). */
  function Fields(s: string, sep: char): (r: seq<string>)
    ensures |r| == CountChar(s, sep) + 1
    ensures forall k :: 0 <= k < |r| ==> |r[k]| <= |s|
  {
    if s == [] then [""]
    else
      var rest := Fields(s[1..], sep);
      if s[0] == sep then [""] + rest
      else [[s[0]] + rest[0]] + rest[1..]
  }

  /** The last field is empty exactly when the text is empty or ends with the separator. */
  lemma {:induction false} LastFieldEmpty(s: string, sep: char)
    ensures var r := Fields(s, sep);
            r[|r| - 1] == "" <==> (s == [] || s[|s| - 1] == sep)
  {
    if s != [] {
      var rest := Fields(s[1..], sep);
      LastFieldEmpty(s[1..], sep);
      if s[0] != sep && |rest| == 1 {
        // no separator after the first character, so the text cannot end with one
        assert CountChar(s[1..], sep) == 0;
        assert s[1..] != [] ==> s[|s| - 1] == s[1..][|s[1..]| - 1];
      }
    }
  }

  predicate IsDigit(c: char) { '0' <= c <= '9' }

  predicate AllDigits(s: string) { forall i :: 0 <= i < |s| ==> IsDigit(s[i]) }

  /** The value of a string of decimal digits, most significant first. */
  function DigitsValue(s: string): nat
    requires AllDigits(s)
  {
    if s == [] then 0
    else 10 * DigitsValue(s[..|s| - 1]) + (s[|s| - 1] as int - '0' as int)
  }

  /**
   * `int(s)` on the text of an input field. Only plain ASCII decimal text is
   * accepted; anything else is the `ValueError` the source would raise.
   */
  function ParseNat(s: string): (r: Option<nat>)
    ensures r.Some? <==> |s| > 0 && AllDigits(s)
  {
    if |s| > 0 && AllDigits(s) then Some(DigitsValue(s)) else None
  }

  function DigitChar(d: nat): (c: char)
    requires d < 10
    ensures IsDigit(c)
  {
    ('0' as int + d) as char
  }

  /** Decimal text of `n` (Python's `str(n)` for a non-negative integer). */
  function Decimal(n: nat): (s: string)
    ensures |s| > 0 && AllDigits(s)
  {
    if n < 10 then [DigitChar(n)] else Decimal(n / 10) + [DigitChar(n % 10)]
  }

  /** `int(str(n)) == n`: parsing is the inverse of printing. */
  lemma {:induction false} ParseDecimal(n: nat)
    ensures ParseNat(Decimal(n)) == Some(n)
  {
    var s := Decimal(n);
    if n < 10 {
      assert s[..0] == [];
    } else {
      ParseDecimal(n / 10);
      assert s[..|s| - 1] == Decimal(n / 10);
      assert DigitsValue(s) == 10 * (n / 10) + n % 10;
    }
  }
}
