/**
 * Times of day written `HH:MM`, as the schedule screens store them, and the
 * way the client reads them back with `split(':')` and `Number`/`parseInt`.
 */
module ClockTime {
  import opened Wrappers
  import opened Text

  const MinuteMs: int := 60 * 1000
  const HourMs: int := 60 * MinuteMs
  const DayMs: int := 24 * HourMs

  predicate AllDigits(s: string) {
    forall i :: 0 <= i < |s| ==> IsDigit(s[i])
  }

  /**
   * `Number(s)` for a string of ASCII digits (the empty string reads as 0); anything else is `NaN`.
   * Only the pieces of a colon-split `HH:MM` time reach it, so the forms JavaScript also accepts
   * (surrounding blanks, a sign, a fraction, an exponent, hexadecimal) are read as `NaN` here.
   */
  function Number(s: string): (r: Option<nat>)
    ensures r.Some? <==> AllDigits(s)
  {
    if AllDigits(s) then Some(DigitsValue(s)) else None
  }

  /** `const [h, m] = t.split(':').map(Number)`: hour and minute, or `None` when either is `NaN` or missing. */
  function ParseHm(t: string): (r: Option<(nat, nat)>)
    ensures r.Some? ==> |Split(t, ':')| >= 2
  {
    var parts := Split(t, ':');
    if |parts| < 2 then None
    else
      var h := Number(parts[0]);
      var m := Number(parts[1]);
      if h.Some? && m.Some? then Some((h.value, m.value)) else None
  }

  /** A time written with two-digit fields reads back as its hour and minute. */
  lemma ParseHmOfPadded(h: nat, m: nat)
    ensures ParseHm(Pad2(h) + ":" + Pad2(m)) == Some((h, m))
  {
    var t := Pad2(h) + ":" + Pad2(m);
    assert ':' !in Pad2(h) && ':' !in Pad2(m);
    SplitJoin([Pad2(h), Pad2(m)], ':');
    assert Join([Pad2(h), Pad2(m)], [':']) == t by {
      assert Join([Pad2(m)], [':']) == Pad2(m);
      assert [Pad2(h), Pad2(m)][1..] == [Pad2(m)];
    }
  }

  /** Minutes since midnight of a parsed time. */
  function MinuteOfDay(hm: (nat, nat)): nat {
    hm.0 * 60 + hm.1
  }

  /** The longest run of digits at the start of `s`. */
  function DigitPrefix(s: string): (r: string)
    ensures |r| <= |s| && r == s[..|r|] && AllDigits(r)
    ensures |r| < |s| ==> !IsDigit(s[|r|])
  {
    if s == [] || !IsDigit(s[0]) then []
    else
      var t := DigitPrefix(s[1..]);
      assert s[..1 + |t|] == [s[0]] + s[1..][..|t|];
      [s[0]] + t
  }

  /** `parseInt(s)` in base 10: leading white space, an optional sign, then as many digits as there are; `NaN` without a digit. */
  function ParseInt(s: string): (r: Option<int>)
    ensures r.None? <==> DigitPrefix(SignFree(TrimStart(s))) == []
  {
    var t := TrimStart(s);
    var d := DigitPrefix(SignFree(t));
    var v: int := if d == [] then 0 else DigitsValue(d);
    if d == [] then None
    else if |t| > 0 && t[0] == '-' then Some(-v)
    else Some(v)
  }

  function SignFree(t: string): string {
    if |t| > 0 && (t[0] == '-' || t[0] == '+') then t[1..] else t
  }

  /** `parseInt` reads a non-empty string of digits as its value, so it agrees with `Number` there. */
  lemma ParseIntOfDigits(s: string)
    requires s != [] && AllDigits(s)
    ensures ParseInt(s) == Some(DigitsValue(s)) == Number(s)
  {
    assert !IsSpace(s[0]);
    assert TrimStart(s) == s;
    DigitPrefixOfDigits(s);
  }

  lemma {:induction false} DigitPrefixOfDigits(s: string)
    requires AllDigits(s)
    ensures DigitPrefix(s) == s
  {
    if s != [] {
      DigitPrefixOfDigits(s[1..]);
    }
  }

  /** `parseInt` stops at the first non-digit: `"9:30"` and `"9am"` both read as 9. */
  lemma ParseIntStopsAtNonDigit(d: string, rest: string)
    requires d != [] && AllDigits(d) && (rest == [] || !IsDigit(rest[0]))
    ensures ParseInt(d + rest) == Some(DigitsValue(d))
  {
    assert !IsSpace((d + rest)[0]);
    assert TrimStart(d + rest) == d + rest;
    DigitPrefixOfDigitsThen(d, rest);
  }

  lemma {:induction false} DigitPrefixOfDigitsThen(d: string, rest: string)
    requires AllDigits(d) && (rest == [] || !IsDigit(rest[0]))
    ensures DigitPrefix(d + rest) == d
  {
    if d == [] {
      assert d + rest == rest;
    } else {
      assert (d + rest)[1..] == d[1..] + rest;
      DigitPrefixOfDigitsThen(d[1..], rest);
    }
  }
}
