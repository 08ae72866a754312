/** Travel durations in the designator form of ISO 8601 (dos_mas_rapidos.py:52-69). */
module Durations {
  import opened Sequences
  import opened Decimals

  /** How many digits the text starts with. */
  function Digits(s: string): (n: nat)
    ensures n <= |s| && AllDigits(s[..n])
    ensures n < |s| ==> !IsDigit(s[n])
  {
    if s == "" || !IsDigit(s[0]) then 0
    else
      var n := Digits(s[1..]);
      assert s[..n + 1] == [s[0]] + s[1..][..n];
      n + 1
  }

  /** The optional group `(\d+)unit`: its value, or 0, and the text behind it. */
  function Component(s: string, unit: char): (int, string) {
    var n := Digits(s);
    if 0 < n < |s| && s[n] == unit then (Value(s[..n]), s[n + 1..]) else (0, s)
  }

  function FirstP(s: string): (k: nat)
    ensures k <= |s|
  {
    if s == "" || s[0] == 'P' then 0 else 1 + FirstP(s[1..])
  }

  /** What the optional groups behind the first P match, in minutes. */
  function Minutes(s: string): int {
    var p := FirstP(s);
    if p == |s| then 0
    else
      var (days, rest) := Component(s[p + 1..], 'D');
      if rest == "" || rest[0] != 'T' then 24 * 60 * days
      else
        var (hours, rest') := Component(rest[1..], 'H');
        var (minutes, _) := Component(rest', 'M');
        24 * 60 * days + 60 * hours + minutes
  }

  // ---------- writing durations ----------

  /** A component that may be left out; any non-empty decimal, leading zeros included. */
  type Numeral = o: Option<string> | o.Some? ==> o.value != "" && AllDigits(o.value) witness None

  function Designator(n: Numeral, unit: char): string {
    if n.None? then "" else n.value + [unit]
  }

  function Amount(n: Numeral): int {
    if n.None? then 0 else Value(n.value)
  }

  /** The text behind the days. */
  function TimeText(hours: Numeral, minutes: Numeral): string {
    if hours.None? && minutes.None? then "" else "T" + Designator(hours, 'H') + Designator(minutes, 'M')
  }

  /** PdDThHmM with components left out; the T goes when both times do. */
  function Duration(days: Numeral, hours: Numeral, minutes: Numeral): string {
    "P" + Designator(days, 'D') + TimeText(hours, minutes)
  }

  lemma {:induction false} DigitsOf(digits: string, rest: string)
    requires AllDigits(digits) && (rest == "" || !IsDigit(rest[0]))
    ensures Digits(digits + rest) == |digits|
  {
    if digits == "" {
      assert digits + rest == rest;
    } else {
      assert (digits + rest)[1..] == digits[1..] + rest;
      DigitsOf(digits[1..], rest);
    }
  }

  /** A component that is there is read, whatever follows. */
  lemma ComponentThere(digits: string, unit: char, rest: string)
    requires digits != "" && AllDigits(digits) && !IsDigit(unit)
    ensures Component(digits + [unit] + rest, unit) == (Value(digits), rest)
  {
    assert digits + [unit] + rest == digits + ([unit] + rest);
    DigitsOf(digits, [unit] + rest);
    assert (digits + [unit] + rest)[..|digits|] == digits;
    assert (digits + [unit] + rest)[|digits| + 1..] == rest;
  }

  /** A component that is left out is not mistaken for the one that follows. */
  lemma ComponentAbsent(unit: char, next: Numeral, other: char, rest: string)
    requires unit != other && !IsDigit(other)
    requires next.None? ==> rest == "" || !IsDigit(rest[0])
    ensures Component(Designator(next, other) + rest, unit) == (0, Designator(next, other) + rest)
  {
    match next
    case None => assert "" + rest == rest;
    case Some(digits) =>
      assert digits + [other] + rest == digits + ([other] + rest);
      DigitsOf(digits, [other] + rest);
  }

  /** One designator in front of the rest of the text, present or not. */
  lemma ReadComponent(n: Numeral, unit: char, rest: string)
    requires !IsDigit(unit)
    requires n.None? ==> Component(rest, unit) == (0, rest)
    ensures Component(Designator(n, unit) + rest, unit) == (Amount(n), rest)
  {
    match n
    case None => assert "" + rest == rest;
    case Some(digits) => ComponentThere(digits, unit, rest);
  }

  /** The text behind the T. */
  lemma ReadTime(hours: Numeral, minutes: Numeral)
    ensures Component(Designator(hours, 'H') + Designator(minutes, 'M'), 'H')
         == (Amount(hours), Designator(minutes, 'M'))
    ensures Component(Designator(minutes, 'M'), 'M') == (Amount(minutes), "")
  {
    assert Component("", 'M') == (0, "");
    hide Component, Designator;
    NoTail(Designator(minutes, 'M'));
    ComponentAbsent('H', minutes, 'M', "");
    ReadComponent(hours, 'H', Designator(minutes, 'M'));
    ReadComponent(minutes, 'M', "");
  }

  lemma ReadDays(days: Numeral, hours: Numeral, minutes: Numeral)
    ensures Component(Designator(days, 'D') + TimeText(hours, minutes), 'D') == (Amount(days), TimeText(hours, minutes))
  {
    var time := TimeText(hours, minutes);
    assert time != "" ==> time[0] == 'T';
    assert Digits(time) == 0;
    ReadComponent(days, 'D', time);
  }

  lemma TextParts(days: Numeral, hours: Numeral, minutes: Numeral)
    ensures var s, time := Duration(days, hours, minutes), TimeText(hours, minutes);
      && s != "" && s[0] == 'P' && s[1..] == Designator(days, 'D') + time
      && (if time == "" then Amount(hours) == Amount(minutes) == 0
          else time[0] == 'T' && time[1..] == Designator(hours, 'H') + Designator(minutes, 'M'))
  {
    hide Designator;
  }

  /** Every duration is read as 1440 d + 60 h + m, for decimals of any length. */
  lemma DurationRoundTrip(days: Numeral, hours: Numeral, minutes: Numeral)
    ensures Minutes(Duration(days, hours, minutes)) == 24 * 60 * Amount(days) + 60 * Amount(hours) + Amount(minutes)
  {
    hide Component, Designator, TimeText, Amount, Duration;
    TextParts(days, hours, minutes);
    ReadDays(days, hours, minutes);
    ReadTime(hours, minutes);
  }

  /** In particular for numbers written in decimal, zero components left out. */
  lemma DecimalDuration(days: nat, hours: nat, minutes: nat)
    ensures Minutes(Duration(Written(days), Written(hours), Written(minutes))) == 24 * 60 * days + 60 * hours + minutes
  {
    ValueOfDecimal(days);
    ValueOfDecimal(hours);
    ValueOfDecimal(minutes);
    DurationRoundTrip(Written(days), Written(hours), Written(minutes));
  }

  function Written(n: nat): Numeral {
    if n == 0 then None else Some(Decimal(n))
  }
}
