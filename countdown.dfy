/** The countdown timer of the coming-soon page.

    Every second the timer takes the distance, in milliseconds, between the
    launch date and the current time, splits it into days, hours, minutes and
    seconds, and writes each of them, left-padded with '0' to two characters,
    into its own page element.  An element's text is rewritten (and the element
    flashes its `tick` class) only when the text changes.  Once the distance is
    negative the timer is complete: it stops its interval and writes nothing.
 */
module Countdown {

  const MsPerSecond: nat := 1000
  const MsPerMinute: nat := 60 * MsPerSecond
  const MsPerHour: nat := 60 * MsPerMinute
  const MsPerDay: nat := 24 * MsPerHour

  /** The four values `update` shows. */
  datatype Remaining = Remaining(days: nat, hours: nat, minutes: nat, seconds: nat)

  /** The split of lines 154-157 of the source: the quotient by a day, then each
      remainder's quotient by the next smaller unit. */
  function Decompose(distance: nat): (r: Remaining)
    ensures r.hours < 24 && r.minutes < 60 && r.seconds < 60
    ensures r.days * MsPerDay + r.hours * MsPerHour + r.minutes * MsPerMinute
            + r.seconds * MsPerSecond + distance % MsPerSecond == distance
  {
    var r := Remaining(distance / MsPerDay,
                       (distance % MsPerDay) / MsPerHour,
                       (distance % MsPerHour) / MsPerMinute,
                       (distance % MsPerMinute) / MsPerSecond);
    DecomposeRoundTrip(distance);
    r
  }

  lemma DecomposeRoundTrip(distance: nat)
    ensures var days, hours, minutes, seconds :=
              distance / MsPerDay,
              (distance % MsPerDay) / MsPerHour,
              (distance % MsPerHour) / MsPerMinute,
              (distance % MsPerMinute) / MsPerSecond;
            hours < 24 && minutes < 60 && seconds < 60 &&
            days * MsPerDay + hours * MsPerHour + minutes * MsPerMinute
            + seconds * MsPerSecond + distance % MsPerSecond == distance
  {
    var ms := distance % 1000;
    var totalSeconds, totalMinutes, totalHours := distance / 1000, distance / 60000, distance / 3600000;
    NestMinute(distance);
    DivModBy(distance % 60000, 1000, totalSeconds % 60, ms);
    NestHour(distance);
    DivModBy(distance % 3600000, 60000, totalMinutes % 60, distance % 60000);
    NestDay(distance);
    DivModBy(distance % 86400000, 3600000, totalHours % 24, distance % 3600000);
    assert totalHours == (totalHours / 24) * 24 + totalHours % 24;
    assert distance == totalHours * 3600000 + distance % 3600000;
  }

  /** The split is the only one with those bounds that adds up to the
      distance: days, hours, minutes and seconds are determined by it. */
  lemma DecomposeUnique(distance: nat, r: Remaining)
    requires r.hours < 24 && r.minutes < 60 && r.seconds < 60
    requires r.days * MsPerDay + r.hours * MsPerHour + r.minutes * MsPerMinute
             + r.seconds * MsPerSecond + distance % MsPerSecond == distance
    ensures r == Decompose(distance)
  {
    var ms := distance % 1000;
    var inSecond := r.seconds * 1000 + ms;
    var inMinute := r.minutes * 60000 + inSecond;
    var inHour := r.hours * 3600000 + inMinute;
    DivModBy(distance, 86400000, r.days, inHour);
    DivModBy(distance, 3600000, r.days * 24 + r.hours, inMinute);
    DivModBy(distance, 60000, (r.days * 24 + r.hours) * 60 + r.minutes, inSecond);
    DivModBy(inHour, 3600000, r.hours, inMinute);
    DivModBy(inMinute, 60000, r.minutes, inSecond);
    DivModBy(inSecond, 1000, r.seconds, ms);
  }

  /** The remainder by a minute, in seconds and milliseconds. */
  lemma NestMinute(d: nat)
    ensures d % 60000 == ((d / 1000) % 60) * 1000 + d % 1000
    ensures d / 60000 == (d / 1000) / 60
  {
    var q, r := d / 1000, d % 1000;
    DivModBy(d, 60000, q / 60, (q % 60) * 1000 + r);
  }

  /** The remainder by an hour, in minutes and the rest. */
  lemma NestHour(d: nat)
    ensures d % 3600000 == ((d / 60000) % 60) * 60000 + d % 60000
    ensures d / 3600000 == (d / 60000) / 60
  {
    var q, r := d / 60000, d % 60000;
    DivModBy(d, 3600000, q / 60, (q % 60) * 60000 + r);
  }

  /** The remainder by a day, in hours and the rest. */
  lemma NestDay(d: nat)
    ensures d % 86400000 == ((d / 3600000) % 24) * 3600000 + d % 3600000
    ensures d / 86400000 == (d / 3600000) / 24
  {
    var q, r := d / 3600000, d % 3600000;
    DivModBy(d, 86400000, q / 24, (q % 24) * 3600000 + r);
  }

  /** Quotient and remainder by one of the unit sizes are unique. */
  lemma DivModBy(d: nat, m: nat, k: nat, s: nat)
    requires m in {1000, 60000, 3600000, 86400000}
    requires s < m && d == k * m + s
    ensures d / m == k && d % m == s
  {
    if m == 1000 { DivModBy1000(d, k, s); }
    else if m == 60000 { DivModBy60000(d, k, s); }
    else if m == 3600000 { DivModBy3600000(d, k, s); }
    else { DivModBy86400000(d, k, s); }
  }

  lemma DivModBy1000(d: nat, k: nat, s: nat)
    requires s < 1000 && d == k * 1000 + s
    ensures d / 1000 == k && d % 1000 == s
  {
    var k', s' := d / 1000, d % 1000;
    assert (k' - k) * 1000 == s - s';
  }

  lemma DivModBy60000(d: nat, k: nat, s: nat)
    requires s < 60000 && d == k * 60000 + s
    ensures d / 60000 == k && d % 60000 == s
  {
    var k', s' := d / 60000, d % 60000;
    assert (k' - k) * 60000 == s - s';
  }

  lemma DivModBy3600000(d: nat, k: nat, s: nat)
    requires s < 3600000 && d == k * 3600000 + s
    ensures d / 3600000 == k && d % 3600000 == s
  {
    var k', s' := d / 3600000, d % 3600000;
    assert (k' - k) * 3600000 == s - s';
  }

  lemma DivModBy86400000(d: nat, k: nat, s: nat)
    requires s < 86400000 && d == k * 86400000 + s
    ensures d / 86400000 == k && d % 86400000 == s
  {
    var k', s' := d / 86400000, d % 86400000;
    assert (k' - k) * 86400000 == s - s';
  }

  // ---------------------------------------------------------------------------
  // String(value) and padStart(2, '0')

  function DigitChar(d: nat): (c: char)
    requires d < 10
    ensures '0' <= c <= '9' && (c as int) - ('0' as int) == d
  {
    ('0' as int + d) as char
  }

  predicate IsDigit(c: char) { '0' <= c <= '9' }

  function DigitValue(c: char): nat
    requires IsDigit(c)
  {
    (c as int) - ('0' as int)
  }

  /** `String(value)` for a non-negative integer: its decimal digits, most
      significant first, with no leading zero. */
  function Digits(n: nat): (s: string)
    ensures 1 <= |s|
    ensures forall k :: 0 <= k < |s| ==> IsDigit(s[k])
    ensures (|s| == 1) == (n < 10)
    ensures n > 0 ==> s[0] != '0'
  {
    if n < 10 then [DigitChar(n)] else Digits(n / 10) + [DigitChar(n % 10)]
  }

  /** Reads a string of decimal digits back as a number. */
  function ParseDecimal(s: string): nat
    requires forall k :: 0 <= k < |s| ==> IsDigit(s[k])
  {
    if s == [] then 0 else ParseDecimal(s[..|s| - 1]) * 10 + DigitValue(s[|s| - 1])
  }

  lemma {:induction false} ParseDigits(n: nat)
    ensures ParseDecimal(Digits(n)) == n
  {
    if n >= 10 {
      var s := Digits(n);
      assert s[..|s| - 1] == Digits(n / 10);
      ParseDigits(n / 10);
    }
  }

  /** `s.padStart(target, fill)` with a one-character fill string. */
  function PadStart(s: string, target: nat, fill: char): (r: string)
    ensures |r| == if |s| >= target then |s| else target
    ensures r[|r| - |s|..] == s
    ensures forall k :: 0 <= k < |r| - |s| ==> r[k] == fill
  {
    if |s| >= target then s else seq(target - |s|, _ => fill) + s
  }

  /** The text `updateElement` writes for a value (line 166 of the source). */
  function Format(value: nat): string
  {
    PadStart(Digits(value), 2, '0')
  }

  lemma FormatShape(value: nat)
    ensures |Format(value)| == if |Digits(value)| >= 2 then |Digits(value)| else 2
    ensures value < 10 ==> Format(value) == ['0', DigitChar(value)]
    ensures value >= 10 ==> Format(value) == Digits(value)
    ensures forall k :: 0 <= k < |Format(value)| ==> IsDigit(Format(value)[k])
  {
    if value < 10 {
      assert Digits(value) == [DigitChar(value)];
      assert Format(value) == ['0'] + [DigitChar(value)];
    }
  }

  /** Different values are shown as different texts, so an element keeps its
      text exactly when the value it shows is unchanged. */
  lemma FormatInjective(a: nat, b: nat)
    ensures Format(a) == Format(b) <==> a == b
  {
    FormatShape(a);
    FormatShape(b);
    if Format(a) == Format(b) {
      assert ParseDecimal(Format(a)) == a by { ParseFormat(a); }
      assert ParseDecimal(Format(b)) == b by { ParseFormat(b); }
    }
  }

  lemma ParseFormat(value: nat)
    ensures forall k :: 0 <= k < |Format(value)| ==> IsDigit(Format(value)[k])
    ensures ParseDecimal(Format(value)) == value
  {
    FormatShape(value);
    if value < 10 {
      var s := Format(value);
      assert s[..1] == ['0'];
      assert ParseDecimal(s[..1][..0]) == 0;
    } else {
      ParseDigits(value);
    }
  }

  // ---------------------------------------------------------------------------
  // The page elements and the timer

  /** A page element as the timer sees it: its text and whether its `tick`
      class is set. */
  class Element {
    var textContent: string
    var ticking: bool

    constructor (text: string)
      ensures textContent == text && !ticking
    {
      textContent := text;
      ticking := false;
    }
  }

  /** What `updateElement` does to an element that showed `text`, with its
      tick class `ticking`: it ends up showing the padded value; when it
      already showed it, its tick class is as it was; otherwise the text is
      replaced and the tick class is set. */
  predicate Refreshed(e: Element, text: string, ticking: bool, value: nat)
    reads e
  {
    e.textContent == Format(value) &&
    (text == Format(value) ==> e.ticking == ticking) &&
    (text != Format(value) ==> e.ticking)
  }

  class CountdownTimer {
    const launchDate: int
    const daysElement: Element
    const hoursElement: Element
    const minutesElement: Element
    const secondsElement: Element
    /** Whether the one-second interval is still installed. */
    var running: bool

    ghost predicate Valid()
    {
      daysElement != hoursElement && daysElement != minutesElement && daysElement != secondsElement &&
      hoursElement != minutesElement && hoursElement != secondsElement &&
      minutesElement != secondsElement
    }

    ghost function Elements(): set<Element>
    {
      {daysElement, hoursElement, minutesElement, secondsElement}
    }

    /** The constructor as written: it stores the launch date and the four
        elements, runs a first update, and only then installs the interval.
        For a launch date already past, that update's `complete` clears an
        interval not yet installed, so the timer is running afterwards all
        the same (until its first tick completes it again). */
    constructor (launchDate: int, now: int, days: Element, hours: Element, minutes: Element, seconds: Element)
      requires days != hours && days != minutes && days != seconds
      requires hours != minutes && hours != seconds && minutes != seconds
      modifies days, hours, minutes, seconds
      ensures Valid() && this.launchDate == launchDate
      ensures daysElement == days && hoursElement == hours
      ensures minutesElement == minutes && secondsElement == seconds
      ensures running
      ensures launchDate - now < 0 ==> unchanged(days, hours, minutes, seconds)
      ensures launchDate - now >= 0 ==> var r := Decompose(launchDate - now);
        Refreshed(days, old(days.textContent), old(days.ticking), r.days) &&
        Refreshed(hours, old(hours.textContent), old(hours.ticking), r.hours) &&
        Refreshed(minutes, old(minutes.textContent), old(minutes.ticking), r.minutes) &&
        Refreshed(seconds, old(seconds.textContent), old(seconds.ticking), r.seconds)
    {
      this.launchDate := launchDate;
      daysElement, hoursElement := days, hours;
      minutesElement, secondsElement := minutes, seconds;
      running := false;
      new;
      Update(now);
      running := true;
    }

    /** The evidently intended order: the interval is installed before the
        first update, so a launch date already past leaves it cleared. */
    constructor IntervalFirst(launchDate: int, now: int, days: Element, hours: Element, minutes: Element, seconds: Element)
      requires days != hours && days != minutes && days != seconds
      requires hours != minutes && hours != seconds && minutes != seconds
      modifies days, hours, minutes, seconds
      ensures Valid() && this.launchDate == launchDate
      ensures daysElement == days && hoursElement == hours
      ensures minutesElement == minutes && secondsElement == seconds
      ensures running <==> launchDate - now >= 0
      ensures launchDate - now < 0 ==> unchanged(days, hours, minutes, seconds)
      ensures launchDate - now >= 0 ==> var r := Decompose(launchDate - now);
        Refreshed(days, old(days.textContent), old(days.ticking), r.days) &&
        Refreshed(hours, old(hours.textContent), old(hours.ticking), r.hours) &&
        Refreshed(minutes, old(minutes.textContent), old(minutes.ticking), r.minutes) &&
        Refreshed(seconds, old(seconds.textContent), old(seconds.ticking), r.seconds)
    {
      this.launchDate := launchDate;
      daysElement, hoursElement := days, hours;
      minutesElement, secondsElement := minutes, seconds;
      running := true;
      new;
      // The two cases are proved apart: a past date clears the interval at
      // once, a future one keeps it and shows the first value.
      if launchDate - now < 0 {
        Update(now);
      } else {
        Update(now);
      }
    }

    /** `updateElement`: the element ends up showing the value, and its text is
        assigned (and its tick class set) only when the text differs. */
    method UpdateElement(element: Element, value: nat)
      modifies element
      ensures Refreshed(element, old(element.textContent), old(element.ticking), value)
    {
      var formatted := Format(value);
      if element.textContent != formatted {
        element.textContent := formatted;
        element.ticking := true;
      }
    }

    /** `update`: a negative distance completes the timer and touches no
        element; otherwise the four elements show the decomposed distance. */
    method Update(now: int)
      requires Valid()
      modifies this`running, Elements()
      ensures launchDate - now < 0 ==> !running && unchanged(Elements())
      ensures launchDate - now >= 0 ==> running == old(running)
      ensures launchDate - now >= 0 ==> var r := Decompose(launchDate - now);
        Refreshed(daysElement, old(daysElement.textContent), old(daysElement.ticking), r.days) &&
        Refreshed(hoursElement, old(hoursElement.textContent), old(hoursElement.ticking), r.hours) &&
        Refreshed(minutesElement, old(minutesElement.textContent), old(minutesElement.ticking), r.minutes) &&
        Refreshed(secondsElement, old(secondsElement.textContent), old(secondsElement.ticking), r.seconds)
    {
      var distance := launchDate - now;
      if distance < 0 {
        Complete();
        return;
      }
      var r := Decompose(distance);
      UpdateElement(daysElement, r.days);
      UpdateElement(hoursElement, r.hours);
      UpdateElement(minutesElement, r.minutes);
      UpdateElement(secondsElement, r.seconds);
    }

    method Complete()
      modifies this`running
      ensures !running
    {
      running := false;
    }

    method Destroy()
      modifies this`running
      ensures !running
    {
      running := false;
    }
  }

  /** A launch date one second before the current time: the constructor as
      written ends with the interval installed. */
  method ExpiredStartKeepsInterval() returns (t: CountdownTimer)
    ensures t.launchDate - 1000 < 0 && t.running
  {
    var d := new Element("");
    var h := new Element("");
    var m := new Element("");
    var s := new Element("");
    t := new CountdownTimer(0, 1000, d, h, m, s);
  }

  /** The same start with the interval installed first ends with it cleared. */
  method ExpiredStartClearsInterval() returns (t: CountdownTimer)
    ensures t.launchDate - 1000 < 0 && !t.running
  {
    var d := new Element("");
    var h := new Element("");
    var m := new Element("");
    var s := new Element("");
    t := new CountdownTimer.IntervalFirst(0, 1000, d, h, m, s);
  }
}
