/**
 * Reading the answers of a vote form: the answer key convention `range_<questionId>_<option>`
 * and the decimal integer parse of a rating (data.kt:66-71).
 */
module RangeKeys {
  import opened Wrappers

  const RangePrefix: string := "range_"
  const MinInt: int := -0x8000_0000
  const MaxInt: int := 0x7fff_ffff

  // ---------------------------------------------------------------------------------------------
  // Integer.parseInt(s), radix 10

  predicate IsDigit(c: char) { '0' <= c <= '9' }

  predicate AllDigits(s: string) { forall i :: 0 <= i < |s| ==> IsDigit(s[i]) }

  /** The value of a string of decimal digits, most significant first. */
  function DigitsValue(s: string): nat
    requires AllDigits(s)
    decreases |s|
  {
    if s == [] then 0 else DigitsValue(s[..|s| - 1]) * 10 + (s[|s| - 1] as int - '0' as int)
  }

  /**
   * `Integer.parseInt`: an optional `-` or `+` followed by at least one digit, whose value
   * fits in 32 bits; anything else is a format error (None).
   */
  function ParseInt(s: string): (r: Option<int>)
    ensures r.Some? ==> MinInt <= r.value <= MaxInt
    ensures r.Some? ==> |s| > 0 && (IsDigit(s[0]) || (|s| > 1 && (s[0] == '-' || s[0] == '+')))
    ensures r.Some? ==> forall i :: 1 <= i < |s| ==> IsDigit(s[i])
    ensures |s| > 0 && AllDigits(s) && DigitsValue(s) <= MaxInt ==> r == Some(DigitsValue(s) as int)
    ensures |s| > 0 && AllDigits(s) && DigitsValue(s) > MaxInt ==> r.None?
    ensures |s| > 1 && (s[0] == '-' || s[0] == '+') && AllDigits(s[1..]) ==>
              var n := if s[0] == '-' then -(DigitsValue(s[1..]) as int) else DigitsValue(s[1..]) as int;
              r == if MinInt <= n <= MaxInt then Some(n) else None
  {
    if s == [] then None
    else
      var negative := s[0] == '-';
      var digits := if s[0] == '-' || s[0] == '+' then s[1..] else s;
      if digits == [] || !AllDigits(digits) then None
      else
        var n: int := if negative then -(DigitsValue(digits) as int) else DigitsValue(digits);
        if MinInt <= n <= MaxInt then Some(n) else None
  }

  /** The decimal digits of a natural number, as `Integer.toString` writes them. */
  function NatDigits(n: nat): (s: string)
    ensures |s| > 0 && AllDigits(s) && DigitsValue(s) == n
    decreases n
  {
    var last := ['0' + (n % 10) as char];
    if n < 10 then last
    else
      var s := NatDigits(n / 10) + last;
      assert s[..|s| - 1] == NatDigits(n / 10);
      s
  }

  /** `Integer.toString`. */
  function IntToString(n: int): string
  {
    if n < 0 then "-" + NatDigits(-n) else NatDigits(n)
  }

  /** Every 32-bit integer written in decimal parses back to itself. */
  lemma ParseIntToString(n: int)
    requires MinInt <= n <= MaxInt
    ensures ParseInt(IntToString(n)) == Some(n)
  {
    var s := IntToString(n);
    if n < 0 {
      assert s[1..] == NatDigits(-n);
    }
  }

  // ---------------------------------------------------------------------------------------------
  // range_<questionId>_<option>

  /** Kotlin's `s.indexOf(c, from)`: the first index at or after `from` holding `c`, or -1. */
  function IndexOf(s: string, c: char, from: nat): (pos: int)
    ensures pos == -1 || from <= pos < |s|
    ensures pos == -1 ==> forall i :: from <= i < |s| ==> s[i] != c
    ensures pos != -1 ==> s[pos] == c && forall i :: from <= i < pos ==> s[i] != c
    decreases |s| - from
  {
    if from >= |s| then -1
    else if s[from] == c then from
    else IndexOf(s, c, from + 1)
  }

  /**
   * The question id and option an answer key names, if it is a range answer: the key starts
   * with `range_` and has another `_` at index 6 or later; the id lies between the prefix and
   * the first such `_`, the option is everything after it.
   */
  function ParseRangeKey(k: string): Option<(string, string)>
  {
    if |k| >= |RangePrefix| && k[..|RangePrefix|] == RangePrefix then
      var pos := IndexOf(k, '_', |RangePrefix|);
      if pos > -1 then Some((k[|RangePrefix|..pos], k[pos + 1..])) else None
    else None
  }

  /** The key `range_<q>_<o>`. */
  function RangeKey(q: string, o: string): string
  {
    RangePrefix + q + "_" + o
  }

  /**
   * A key parses to (q, o) exactly when it is `range_<q>_<o>` and q holds no `_`;
   * so o may hold `_` but q may not.
   */
  lemma ParseRangeKeyIff(k: string, q: string, o: string)
    ensures ParseRangeKey(k) == Some((q, o)) <==> k == RangeKey(q, o) && '_' !in q
  {
    var n := |RangePrefix|;
    if ParseRangeKey(k) == Some((q, o)) {
      var pos := IndexOf(k, '_', n);
      assert k == k[..n] + k[n..pos] + [k[pos]] + k[pos + 1..];
      forall i | 0 <= i < |q| ensures q[i] != '_' {
        assert q[i] == k[n + i];
      }
    }
    if k == RangeKey(q, o) && '_' !in q {
      var pos := IndexOf(k, '_', n);
      assert k[n + |q|] == '_';
      assert k[n..pos] == q;
      assert k[pos + 1..] == o;
    }
  }
}
