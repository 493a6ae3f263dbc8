/**
 * Calendar dates written in the ISO 8601 extended format `YYYY-MM-DD` (ISO 8601:2004,
 * section 4.1.2.2), the form date inputs produce and the day keys of the calendar use.
 */
module IsoDate {
  import opened Optional
  import opened Text
  import opened Dates

  function Pow10(w: nat): (p: nat)
    ensures p >= 1
  {
    if w == 0 then 1 else 10 * Pow10(w - 1)
  }

  /** A number below 10^w has at most w digits. */
  lemma {:induction false} NatToStringWidth(n: nat, w: nat)
    requires w >= 1 && n < Pow10(w)
    ensures |NatToString(n)| <= w
  {
    if n >= 10 {
      NatToStringWidth(n / 10, w - 1);
    }
  }

  lemma NatToStringFits(n: nat, w: nat)
    ensures w >= 1 && n < Pow10(w) ==> |NatToString(n)| <= w
  {
    if w >= 1 && n < Pow10(w) {
      NatToStringWidth(n, w);
    }
  }

  function Zeros(k: nat): (s: string)
    ensures |s| == k
    ensures forall i :: 0 <= i < k ==> s[i] == '0'
  {
    if k == 0 then "" else "0" + Zeros(k - 1)
  }

  /** `n` in decimal, left-padded with zeros to `width` digits when it is shorter. */
  function PadDigits(n: nat, width: nat): (s: string)
    ensures |s| >= width
    ensures forall i :: 0 <= i < |s| ==> '0' <= s[i] <= '9'
    ensures width >= 1 && n < Pow10(width) ==> |s| == width
  {
    var d := NatToString(n);
    NatToStringFits(n, width);
    if |d| >= width then d else Zeros(width - |d|) + d
  }

  predicate AllDigits(s: string) {
    forall i :: 0 <= i < |s| ==> '0' <= s[i] <= '9'
  }

  lemma {:induction false} ZerosValue(k: nat)
    ensures DigitsValue(Zeros(k)) == 0
  {
    if k > 0 {
      var z := Zeros(k);
      assert z[..k - 1] == Zeros(k - 1) by {
        ZerosShift(k);
      }
      ZerosValue(k - 1);
    }
  }

  lemma ZerosShift(k: nat)
    requires k > 0
    ensures Zeros(k)[..k - 1] == Zeros(k - 1)
  {
    var z := Zeros(k);
    var y := Zeros(k - 1);
    assert forall i :: 0 <= i < k - 1 ==> z[i] == '0' == y[i];
  }

  /** Leading zeros do not change the value of a digit string. */
  lemma {:induction false} LeadingZeros(k: nat, t: string)
    requires AllDigits(t)
    ensures AllDigits(Zeros(k) + t)
    ensures DigitsValue(Zeros(k) + t) == DigitsValue(t)
    decreases |t|
  {
    var s := Zeros(k) + t;
    if t == [] {
      assert s == Zeros(k);
      ZerosValue(k);
    } else {
      var t' := t[..|t| - 1];
      assert s[..|s| - 1] == Zeros(k) + t';
      assert s[|s| - 1] == t[|t| - 1];
      LeadingZeros(k, t');
    }
  }

  lemma PadDigitsValue(n: nat, width: nat)
    ensures DigitsValue(PadDigits(n, width)) == n
  {
    NatToStringRoundTrip(n);
    var d := NatToString(n);
    if |d| < width {
      LeadingZeros(width - |d|, d);
    }
  }

  /** The date written as `YYYY-MM-DD`; the year must fit in four digits. */
  function Format(d: Date): (s: string)
    requires Valid(d) && 0 <= d.year <= 9999
    ensures |s| == 10 && s[4] == '-' && s[7] == '-'
    ensures AllDigits(s[..4]) && AllDigits(s[5..7]) && AllDigits(s[8..])
  {
    assert Pow10(4) == 10000 && Pow10(2) == 100;
    PadDigits(d.year, 4) + "-" + PadDigits(d.month, 2) + "-" + PadDigits(d.day, 2)
  }

  /** Reads a `YYYY-MM-DD` string; anything else, or a day the month does not have, is `None`. */
  function Parse(s: string): (r: Option<Date>)
    ensures r.Some? ==> Valid(r.value) && 0 <= r.value.year <= 9999
  {
    if |s| == 10 && s[4] == '-' && s[7] == '-' && AllDigits(s[..4]) && AllDigits(s[5..7]) && AllDigits(s[8..]) then
      var y := DigitsValue(s[..4]);
      var m := DigitsValue(s[5..7]);
      var d := DigitsValue(s[8..]);
      assert y < 10000 by {
        DigitsBound(s[..4]);
        assert Pow10(4) == 10000;
      }
      if 1 <= m <= 12 && 1 <= d <= MonthLength(y, m) then Some(Date(y, m, d)) else None
    else None
  }

  lemma {:induction false} DigitsBound(s: string)
    requires AllDigits(s)
    ensures DigitsValue(s) < Pow10(|s|)
  {
    if s != [] {
      DigitsBound(s[..|s| - 1]);
    }
  }

  /** `new Date(t) >= new Date(day)`: a day that does not parse is an invalid date and compares false. */
  predicate AtOrAfter(t: int, day: string) {
    match Parse(day)
    case Some(d) => t >= Millis(d)
    case None => false
  }

  /** `new Date(t) <= new Date(day)`: the day stands for its midnight, so later times that day fail. */
  predicate AtOrBefore(t: int, day: string) {
    match Parse(day)
    case Some(d) => t <= Millis(d)
    case None => false
  }

  /** Writing a date and reading it back gives the same date. */
  lemma ParseFormat(d: Date)
    requires Valid(d) && 0 <= d.year <= 9999
    ensures Parse(Format(d)) == Some(d)
  {
    var s := Format(d);
    var ys, ms, ds := PadDigits(d.year, 4), PadDigits(d.month, 2), PadDigits(d.day, 2);
    assert Pow10(4) == 10000 && Pow10(2) == 100;
    assert s[..4] == ys;
    assert s[5..7] == ms;
    assert s[8..] == ds;
    PadDigitsValue(d.year, 4);
    PadDigitsValue(d.month, 2);
    PadDigitsValue(d.day, 2);
  }

  /** Against a written date, both bounds are inclusive comparisons with its midnight. */
  lemma DayBounds(t: int, d: Date)
    requires Valid(d) && 0 <= d.year <= 9999
    ensures AtOrAfter(t, Format(d)) <==> t >= Millis(d)
    ensures AtOrBefore(t, Format(d)) <==> t <= Millis(d)
  {
    ParseFormat(d);
  }

  /** Different dates have different keys. */
  lemma FormatInjective(a: Date, b: Date)
    requires Valid(a) && 0 <= a.year <= 9999
    requires Valid(b) && 0 <= b.year <= 9999
    ensures Format(a) == Format(b) <==> a == b
  {
    if Format(a) == Format(b) {
      ParseFormat(a);
      ParseFormat(b);
    }
  }
}
