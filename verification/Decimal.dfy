/** The decimal text of a replica count, and reading it back. */
module Decimal {
  import opened Cluster

  const DIGITS: string := "0123456789"

  function Format(n: nat): (s: string)
    ensures |s| > 0
  {
    if n < 10 then [DIGITS[n]] else Format(n / 10) + [DIGITS[n % 10]]
  }

  function Digit(c: char): Option<nat> {
    if '0' <= c <= '9' then Some(c as nat - '0' as nat) else None
  }

  function Parse(s: string): Option<nat> {
    if s == [] then None
    else
      var low := Digit(s[|s| - 1]);
      if |s| == 1 || low.None? then low
      else
        var high := Parse(s[..|s| - 1]);
        if high.None? then None else Some(10 * high.value + low.value)
  }

  /** The text is the count in base ten: a digit below ten, and otherwise the text of the tens and then the units. */
  lemma TextIsDecimal(tens: nat, units: nat)
    requires units < 10
    ensures Format(units) == ["0123456789"[units]]
    ensures tens > 0 ==> Format(10 * tens + units) == Format(tens) + ["0123456789"[units]]
  {
    assert (10 * tens + units) / 10 == tens && (10 * tens + units) % 10 == units;
  }

  /** Reading the text back gives the count, so the recorded text identifies it. */
  lemma {:induction false} RoundTrip(n: nat)
    ensures Parse(Format(n)) == Some(n)
  {
    if n >= 10 {
      RoundTrip(n / 10);
      assert Format(n)[..|Format(n)| - 1] == Format(n / 10);
      assert Digit(DIGITS[n % 10]) == Some(n % 10);
    }
  }
}
