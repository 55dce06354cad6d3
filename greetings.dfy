/** `get_greetings` (src/utils.py): the time of day is formatted as
    "HH:MM:SS" and compared as text against four boundaries. The clock is
    the parameter `now`. */
module Greetings {
  import opened Text
  import opened Calendar
  import opened Strptime

  /** `now.time().strftime("%H:%M:%S")`. */
  function TimeText(t: DateTime): (s: string)
    requires Valid(t)
    ensures |s| == 8
  {
    Pad2(t.hour) + (":" + (Pad2(t.minute) + (":" + Pad2(t.second))))
  }

  /** Python's `a <= b` on strings. */
  predicate NotGreater(a: string, b: string)
  {
    a == b || Less(a, b)
  }

  /** The greeting for the clock reading `now`. */
  function Greeting(now: DateTime): (g: string)
    requires Valid(now)
    ensures g == "Доброй ночи" || g == "Доброе утро" || g == "Добрый день" || g == "Добрый вечер"
  {
    var time := TimeText(now);
    "Добр" +
      if Less("00:00:00", time) && Less(time, "06:00:00") then "ой ночи"
      else if NotGreater("06:00:00", time) && Less(time, "12:00:00") then "ое утро"
      else if NotGreater("12:00:00", time) && Less(time, "18:00:00") then "ый день"
      else "ый вечер"
  }

  function SecondsOfDay(t: DateTime): int
  {
    t.hour * 3600 + t.minute * 60 + t.second
  }

  /** The clock reading `h:m:s` (the date plays no part). */
  function Clock(h: int, m: int, s: int): DateTime
  {
    DateTime(2000, 1, 1, h, m, s)
  }

  /** Two-digit texts compare as their numbers. */
  lemma LessPad2(a: int, b: int)
    requires 0 <= a <= 99 && 0 <= b <= 99
    ensures Less(Pad2(a), Pad2(b)) <==> a < b
    ensures Pad2(a) == Pad2(b) <==> a == b
  {
    var x, y := Pad2(a), Pad2(b);
    assert a == 10 * DigitValue(x[0]) + DigitValue(x[1]);
    assert b == 10 * DigitValue(y[0]) + DigitValue(y[1]);
    assert x == [x[0]] + [x[1]] && y == [y[0]] + [y[1]];
    LessConcat([x[0]], [x[1]], [y[0]], [y[1]]);
    assert Less([x[0]], [y[0]]) <==> x[0] < y[0];
    assert Less([x[1]], [y[1]]) <==> x[1] < y[1];
  }

  /** "HH:MM:SS" texts compare as the times of day they show. */
  lemma LessTimeText(a: DateTime, b: DateTime)
    requires Valid(a) && Valid(b)
    ensures Less(TimeText(a), TimeText(b)) <==> SecondsOfDay(a) < SecondsOfDay(b)
    ensures TimeText(a) == TimeText(b) <==> SecondsOfDay(a) == SecondsOfDay(b)
  {
    LessPad2(a.hour, b.hour);
    LessPad2(a.minute, b.minute);
    LessPad2(a.second, b.second);
    var ms, ns := ":" + Pad2(a.second), ":" + Pad2(b.second);
    LessConcat(":", Pad2(a.second), ":", Pad2(b.second));
    LessIrreflexive(":");
    var mm, nm := Pad2(a.minute) + ms, Pad2(b.minute) + ns;
    LessConcat(Pad2(a.minute), ms, Pad2(b.minute), ns);
    var rm, rn := ":" + mm, ":" + nm;
    LessConcat(":", mm, ":", nm);
    LessConcat(Pad2(a.hour), rm, Pad2(b.hour), rn);
    assert TimeText(a) == TimeText(b) <==>
      a.hour == b.hour && a.minute == b.minute && a.second == b.second by {
      if TimeText(a) == TimeText(b) {
        assert TimeText(a)[..2] == Pad2(a.hour) && TimeText(b)[..2] == Pad2(b.hour);
        assert TimeText(a)[3..5] == Pad2(a.minute) && TimeText(b)[3..5] == Pad2(b.minute);
        assert TimeText(a)[6..] == Pad2(a.second) && TimeText(b)[6..] == Pad2(b.second);
      }
    }
  }

  /** The four boundaries are the texts of 00:00, 06:00, 12:00 and 18:00. */
  lemma Boundaries()
    ensures TimeText(Clock(0, 0, 0)) == "00:00:00"
    ensures TimeText(Clock(6, 0, 0)) == "06:00:00"
    ensures TimeText(Clock(12, 0, 0)) == "12:00:00"
    ensures TimeText(Clock(18, 0, 0)) == "18:00:00"
  {
  }

  /** A comparison against the text of the hour `h`, read as a time of day. */
  lemma AgainstHour(now: DateTime, h: int, text: string)
    requires Valid(now) && 0 <= h < 24 && TimeText(Clock(h, 0, 0)) == text
    ensures Less(text, TimeText(now)) <==> h * 3600 < SecondsOfDay(now)
    ensures NotGreater(text, TimeText(now)) <==> h * 3600 <= SecondsOfDay(now)
    ensures Less(TimeText(now), text) <==> SecondsOfDay(now) < h * 3600
  {
    LessTimeText(Clock(h, 0, 0), now);
    LessTimeText(now, Clock(h, 0, 0));
  }

  /** The comparisons `get_greetings` makes, read as times of day. */
  lemma Comparisons(now: DateTime)
    requires Valid(now)
    ensures Less("00:00:00", TimeText(now)) <==> 0 < SecondsOfDay(now)
    ensures Less(TimeText(now), "06:00:00") <==> SecondsOfDay(now) < 6 * 3600
    ensures NotGreater("06:00:00", TimeText(now)) <==> 6 * 3600 <= SecondsOfDay(now)
    ensures Less(TimeText(now), "12:00:00") <==> SecondsOfDay(now) < 12 * 3600
    ensures NotGreater("12:00:00", TimeText(now)) <==> 12 * 3600 <= SecondsOfDay(now)
    ensures Less(TimeText(now), "18:00:00") <==> SecondsOfDay(now) < 18 * 3600
  {
    Boundaries();
    AgainstHour(now, 0, "00:00:00");
    AgainstHour(now, 6, "06:00:00");
    AgainstHour(now, 12, "12:00:00");
    AgainstHour(now, 18, "18:00:00");
  }

  /** The greeting by time of day: night strictly after midnight and before
      06:00, morning from 06:00, day from 12:00, evening from 18:00 and at
      midnight exactly (the first comparison is strict). */
  lemma GreetingClasses(now: DateTime)
    requires Valid(now)
    ensures Greeting(now) == "Доброй ночи" <==> 0 < SecondsOfDay(now) < 6 * 3600
    ensures Greeting(now) == "Доброе утро" <==> 6 * 3600 <= SecondsOfDay(now) < 12 * 3600
    ensures Greeting(now) == "Добрый день" <==> 12 * 3600 <= SecondsOfDay(now) < 18 * 3600
    ensures Greeting(now) == "Добрый вечер" <==> SecondsOfDay(now) == 0 || 18 * 3600 <= SecondsOfDay(now)
  {
    Comparisons(now);
    assert "Добр" + "ой ночи" == "Доброй ночи" && "Добр" + "ое утро" == "Доброе утро";
    assert "Добр" + "ый день" == "Добрый день" && "Добр" + "ый вечер" == "Добрый вечер";
    assert "Доброй ночи"[5] != "Доброе утро"[5] && "Доброй ночи"[4] != "Добрый день"[4];
  }

  /** The readings of the greeting tests, and midnight. */
  lemma MorningExample()
    ensures Greeting(Clock(6, 0, 19)) == "Доброе утро"
  {
    GreetingClasses(Clock(6, 0, 19));
  }

  lemma DayExample()
    ensures Greeting(Clock(12, 0, 0)) == "Добрый день"
  {
    GreetingClasses(Clock(12, 0, 0));
  }

  lemma EveningExample()
    ensures Greeting(Clock(18, 0, 1)) == "Добрый вечер"
    ensures Greeting(Clock(0, 0, 0)) == "Добрый вечер"
  {
    GreetingClasses(Clock(18, 0, 1));
    GreetingClasses(Clock(0, 0, 0));
  }

  lemma NightExample()
    ensures Greeting(Clock(5, 59, 59)) == "Доброй ночи"
  {
    GreetingClasses(Clock(5, 59, 59));
  }
}
