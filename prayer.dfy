/** The prayer-times card: reading "h:mm AM" clock strings and picking the
    prayer whose time has most recently passed. */
module Prayer {
  import opened Common
  import opened JsText

  /** A clock reading in minutes after midnight, or NaN when a field of the
      string was not a number. */
  datatype Clock = At(minutes: int) | NaN

  /** Reading a time either gives a clock value or throws: a string without
      a space has no AM/PM part, and `undefined.toLowerCase()` throws. */
  datatype Parsed<T> = Value(value: T) | Throws

  /** `modifier.toLowerCase() === "pm"` (and "am"): any mix of cases. */
  predicate IsPm(m: string)
  {
    |m| == 2 && m[0] in "pP" && m[1] in "mM"
  }

  predicate IsAm(m: string)
  {
    |m| == 2 && m[0] in "aA" && m[1] in "mM"
  }

  /** The minute of the day of a clock reading of `hours`:`minutes`. */
  function MinuteOfDay(hours: int, minutes: int): (m: int)
    ensures 0 <= hours < 24 && 0 <= minutes < 60 ==> 0 <= m < 24 * 60
  {
    hours * 60 + minutes
  }

  /** The 12-hour conversion on the numbers read from the string: PM adds
      12 except to 12, and 12 AM is hour 0. */
  function To24Hour(hours: int, modifier: string): (h: int)
    ensures IsPm(modifier) && hours != 12 ==> h == hours + 12
    ensures IsPm(modifier) && hours == 12 ==> h == 12
    ensures IsAm(modifier) && hours == 12 ==> h == 0
    ensures IsAm(modifier) && hours != 12 ==> h == hours
    ensures !IsPm(modifier) && !IsAm(modifier) ==> h == hours
    ensures 1 <= hours <= 12 && (IsAm(modifier) || IsPm(modifier)) ==> 0 <= h < 24
  {
    var h := if IsPm(modifier) && hours != 12 then hours + 12 else hours;
    if IsAm(modifier) && h == 12 then 0 else h
  }

  /** One time string: split at the first space into time and modifier,
      the time at ':' into hours and minutes, each read with `Number()`. */
  function ParseTime(s: string): (p: Parsed<Clock>)
    ensures p.Throws? <==> |Split(s, ' ')| < 2
  {
    var parts := Split(s, ' ');
    if |parts| < 2 then Throws
    else
      var fields := Split(parts[0], ':');
      var hours := NumberOf(fields[0]);
      var minutes := if |fields| >= 2 then NumberOf(fields[1]) else None;
      if hours.None? || minutes.None? then Value(NaN)
      else Value(At(MinuteOfDay(To24Hour(hours.value, parts[1]), minutes.value)))
  }

  /** A string "<hours>:<minutes> <modifier>" made of digit strings reads
      as the minute of the day after the 12-hour conversion. */
  lemma ParseTimeOf(hs: string, ms: string, modifier: string)
    requires AllDigits(hs) && AllDigits(ms) && ' ' !in modifier
    ensures ParseTime(hs + ":" + ms + " " + modifier)
            == Value(At(MinuteOfDay(To24Hour(DigitsValue(hs), modifier), DigitsValue(ms))))
  {
    var time := hs + ":" + ms;
    assert ' ' !in time by {
      assert forall i :: 0 <= i < |time| ==> time[i] == ':' || IsDigit(time[i]);
    }
    assert ':' !in hs by {
      assert forall i :: 0 <= i < |hs| ==> IsDigit(hs[i]);
    }
    assert ':' !in ms by {
      assert forall i :: 0 <= i < |ms| ==> IsDigit(ms[i]);
    }
    assert hs + ":" + ms + " " + modifier == time + [' '] + modifier;
    SplitAtFirst(time, modifier, ' ');
    SplitWithout(modifier, ' ');
    assert time == hs + [':'] + ms;
    SplitAtFirst(hs, ms, ':');
    SplitWithout(ms, ':');
  }

  /** Splitting `a + [sep] + b` where `a` has no separator gives `a` first
      and `Split(b)` after it. */
  lemma {:induction false} SplitAtFirst(a: string, b: string, sep: char)
    requires sep !in a
    ensures Split(a + [sep] + b, sep) == [a] + Split(b, sep)
    decreases |a|
  {
    if a == [] {
      assert a + [sep] + b == [sep] + b;
      assert ([sep] + b)[1..] == b;
    } else {
      SplitAtFirst(a[1..], b, sep);
      assert (a + [sep] + b)[1..] == a[1..] + [sep] + b;
      assert [a[0]] + a[1..] == a;
    }
  }

  /** A string without the separator splits into itself. */
  lemma {:induction false} SplitWithout(a: string, sep: char)
    requires sep !in a
    ensures Split(a, sep) == [a]
    decreases |a|
  {
    if a != [] {
      SplitWithout(a[1..], sep);
      assert [a[0]] + a[1..] == a;
    }
  }

  /** Every time of the list is read in turn; the first that throws makes
      the whole reading throw. */
  function ParseAll(times: seq<string>): (p: Parsed<seq<Clock>>)
    ensures p.Value? <==> forall i :: 0 <= i < |times| ==> ParseTime(times[i]).Value?
    ensures p.Value? ==> |p.value| == |times|
    ensures p.Value? ==> forall i :: 0 <= i < |times| ==> p.value[i] == ParseTime(times[i]).value
    decreases |times|
  {
    if times == [] then Value([])
    else match (ParseTime(times[0]), ParseAll(times[1..]))
      case (Value(c), Value(rest)) => Value([c] + rest)
      case _ => Throws
  }

  /** Whether the prayer at `c` has begun by minute `now` (NaN never has). */
  predicate Begun(now: int, c: Clock): (b: bool)
    ensures c.NaN? ==> !b
    ensures c.At? ==> (b <==> c.minutes <= now)
  {
    c.At? && now >= c.minutes
  }

  /** The index of the current prayer: the last one that has begun, or, when
      none has yet today, the last of the list (the previous night's Isha);
      -1 for an empty list. */
  method CurrentPrayer(now: int, times: seq<Clock>) returns (i: int)
    ensures times == [] ==> i == -1
    ensures times != [] ==> 0 <= i < |times|
    ensures 0 <= i < |times| && Begun(now, times[i]) ==>
              forall j :: i < j < |times| ==> !Begun(now, times[j])
    ensures 0 <= i < |times| && !Begun(now, times[i]) ==>
              i == |times| - 1 && forall j :: 0 <= j < |times| ==> !Begun(now, times[j])
  {
    var k := |times| - 1;
    while k >= 0
      invariant -1 <= k < |times|
      invariant forall j :: k < j < |times| ==> !Begun(now, times[j])
      decreases k
    {
      if Begun(now, times[k]) {
        return k;
      }
      k := k - 1;
    }
    return |times| - 1;
  }

  /** The whole of `getCurrentPrayer`: the clock reading `hours`:`minutes`
      against the timetable's strings; throws when a string does. */
  method GetCurrentPrayer(hours: int, minutes: int, timeStrings: seq<string>) returns (r: Parsed<int>)
    ensures r.Throws? <==> ParseAll(timeStrings).Throws?
    ensures r.Value? ==> var times := ParseAll(timeStrings).value;
                         var now := MinuteOfDay(hours, minutes);
                         && (timeStrings == [] <==> r.value == -1)
                         && (timeStrings != [] ==> 0 <= r.value < |times|)
                         && (0 <= r.value ==> forall j :: r.value < j < |times| ==> !Begun(now, times[j]))
                         && (0 <= r.value && !Begun(now, times[r.value]) ==>
                               forall j :: 0 <= j < |times| ==> !Begun(now, times[j]))
  {
    var parsed := ParseAll(timeStrings);
    if parsed.Throws? {
      return Throws;
    }
    var i := CurrentPrayer(MinuteOfDay(hours, minutes), parsed.value);
    return Value(i);
  }

  const DefaultTimes := ["5:45 AM", "1:15 PM", "4:30 PM", "7:15 PM", "8:45 PM"]
  const DefaultNames := ["Fajr", "Dhuhr", "Asr", "Maghrib", "Isha"]

  /** The minutes the built-in timetable stands for. */
  const DefaultMinutes := [345, 795, 990, 1155, 1245]

  /** The built-in timetable reads as 345, 795, 990, 1155 and 1245 minutes,
      strictly increasing through the day. */
  lemma DefaultTimesParse()
    ensures forall i :: 0 <= i < |DefaultTimes| ==> ParseTime(DefaultTimes[i]) == Value(At(DefaultMinutes[i]))
    ensures forall i, j :: 0 <= i < j < |DefaultMinutes| ==> DefaultMinutes[i] < DefaultMinutes[j]
  {
    forall i | 0 <= i < 2
      ensures ParseTime(DefaultTimes[i]) == Value(At(DefaultMinutes[i]))
    {
      EarlyTimeReads(i, DefaultMinutes[i]);
    }
    forall i | 2 <= i < 5
      ensures ParseTime(DefaultTimes[i]) == Value(At(DefaultMinutes[i]))
    {
      LateTimeReads(i, DefaultMinutes[i]);
    }
    DefaultMinutesIncrease();
  }

  lemma DefaultMinutesIncrease()
    ensures forall i, j :: 0 <= i < j < |DefaultMinutes| ==> DefaultMinutes[i] < DefaultMinutes[j]
  {
  }

  /** Fajr and Dhuhr of the built-in timetable. */
  lemma EarlyTimeReads(i: nat, minutes: int)
    requires i < 2 && minutes == DefaultMinutes[i]
    ensures ParseTime(DefaultTimes[i]) == Value(At(minutes))
  {
    var d := DefaultTimes;
    if i == 0 {
      ReadsAs("5", "45", "AM", 345);
      assert "5" + ":" + "45" + " " + "AM" == d[0];
    } else {
      ReadsAs("1", "15", "PM", 795);
      assert "1" + ":" + "15" + " " + "PM" == d[1];
    }
  }

  /** Asr, Maghrib and Isha of the built-in timetable. */
  lemma LateTimeReads(i: nat, minutes: int)
    requires 2 <= i < 5 && minutes == DefaultMinutes[i]
    ensures ParseTime(DefaultTimes[i]) == Value(At(minutes))
  {
    var d := DefaultTimes;
    if i == 2 {
      ReadsAs("4", "30", "PM", 990);
      assert "4" + ":" + "30" + " " + "PM" == d[2];
    } else if i == 3 {
      ReadsAs("7", "15", "PM", 1155);
      assert "7" + ":" + "15" + " " + "PM" == d[3];
    } else {
      ReadsAs("8", "45", "PM", 1245);
      assert "8" + ":" + "45" + " " + "PM" == d[4];
    }
  }

  lemma ReadsAs(hs: string, ms: string, modifier: string, minutes: int)
    requires |hs| == 1 && |ms| == 2 && AllDigits(hs) && AllDigits(ms) && ' ' !in modifier
    requires minutes == MinuteOfDay(To24Hour(DigitValue(hs[0]),  modifier),
                                    10 * DigitValue(ms[0]) + DigitValue(ms[1]))
    ensures ParseTime(hs + ":" + ms + " " + modifier) == Value(At(minutes))
  {
    ParseTimeOf(hs, ms, modifier);
    assert hs[..0] == [] && ms[..1][..0] == [] && ms[..1] == [ms[0]];
  }

  /** A string with no AM/PM part throws. */
  lemma MissingModifierThrows()
    ensures ParseTime("5:45") == Throws
  {
    SplitWithout("5:45", ' ');
  }
}
