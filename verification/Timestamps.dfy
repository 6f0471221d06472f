/** Fixed-width UTC timestamps, whose text order is their chronological order. */
module Timestamps {
  import opened Prelude

  datatype Stamp = Stamp(year: int, month: int, day: int, hour: int, minute: int, second: int)

  predicate ValidStamp(t: Stamp) {
    && 0 <= t.year <= 9999 && 1 <= t.month <= 12 && 1 <= t.day <= 31
    && 0 <= t.hour <= 23 && 0 <= t.minute <= 59 && 0 <= t.second <= 59
  }

  /** Chronological order of two UTC instants. */
  predicate Before(a: Stamp, b: Stamp) {
    || a.year < b.year
    || (a.year == b.year && (a.month < b.month
    || (a.month == b.month && (a.day < b.day
    || (a.day == b.day && (a.hour < b.hour
    || (a.hour == b.hour && (a.minute < b.minute
    || (a.minute == b.minute && a.second < b.second)))))))))
  }

  function TwoDigits(n: int): (text: string)
    requires 0 <= n <= 99
  {
    [(48 + n / 10) as char, (48 + n % 10) as char]
  }

  /** `datetime.isoformat()` of a UTC instant without a fraction. */
  function IsoFormat(t: Stamp): (text: string)
    requires ValidStamp(t)
  {
    TwoDigits(t.year / 100) + (TwoDigits(t.year % 100) + ("-" + (TwoDigits(t.month) + ("-" + (TwoDigits(t.day) +
    ("T" + (TwoDigits(t.hour) + (":" + (TwoDigits(t.minute) + (":" + (TwoDigits(t.second) + "+00:00")))))))))))
  }

  lemma {:induction false} PrefixOrder(p: string, x: string, q: string, y: string)
    requires |p| == |q|
    ensures TextLess(p + x, q + y) <==> TextLess(p, q) || (p == q && TextLess(x, y))
  {
    if p == "" {
      assert p + x == x && q + y == y;
    } else {
      assert (p + x)[1..] == p[1..] + x && (q + y)[1..] == q[1..] + y;
      PrefixOrder(p[1..], x, q[1..], y);
      assert p == [p[0]] + p[1..] && q == [q[0]] + q[1..];
    }
  }

  lemma {:induction false} Irreflexive(a: string)
    ensures !TextLess(a, a)
  {
    if a != "" {
      Irreflexive(a[1..]);
    }
  }

  lemma TwoDigitsOrder(m: int, n: int)
    requires 0 <= m <= 99 && 0 <= n <= 99
    ensures TextLess(TwoDigits(m), TwoDigits(n)) <==> m < n
    ensures TwoDigits(m) == TwoDigits(n) <==> m == n
  {
    var a, b := TwoDigits(m), TwoDigits(n);
    assert a[0] < b[0] <==> m / 10 < n / 10;
    assert a[1] < b[1] <==> m % 10 < n % 10;
    var x, y := a[1..], b[1..];
    assert x[0] == a[1] && y[0] == b[1] && x[1..] == "" && y[1..] == "";
    assert TextLess(x, y) <==> a[1] < b[1];
    assert TextLess(a, b) <==> a[0] < b[0] || (a[0] == b[0] && TextLess(x, y));
  }

  /** A two-digit field decides, and on a tie the rest does. */
  lemma FieldOrder(m: int, x: string, n: int, y: string)
    requires 0 <= m <= 99 && 0 <= n <= 99
    ensures TextLess(TwoDigits(m) + x, TwoDigits(n) + y) <==> m < n || (m == n && TextLess(x, y))
  {
    PrefixOrder(TwoDigits(m), x, TwoDigits(n), y);
    TwoDigitsOrder(m, n);
  }

  lemma SeparatorOrder(p: string, x: string, y: string)
    ensures TextLess(p + x, p + y) <==> TextLess(x, y)
  {
    PrefixOrder(p, x, p, y);
    Irreflexive(p);
  }

  function TimeText(t: Stamp): (text: string)
    requires ValidStamp(t)
  {
    TwoDigits(t.hour) + (":" + (TwoDigits(t.minute) + (":" + (TwoDigits(t.second) + "+00:00"))))
  }

  lemma TimeOrder(a: Stamp, b: Stamp)
    requires ValidStamp(a) && ValidStamp(b)
    ensures TextLess(TimeText(a), TimeText(b)) <==>
            || a.hour < b.hour
            || (a.hour == b.hour && (a.minute < b.minute || (a.minute == b.minute && a.second < b.second)))
  {
    var sa, sb := TwoDigits(a.second) + "+00:00", TwoDigits(b.second) + "+00:00";
    FieldOrder(a.second, "+00:00", b.second, "+00:00");
    Irreflexive("+00:00");
    SeparatorOrder(":", sa, sb);
    var ma, mb := TwoDigits(a.minute) + (":" + sa), TwoDigits(b.minute) + (":" + sb);
    FieldOrder(a.minute, ":" + sa, b.minute, ":" + sb);
    SeparatorOrder(":", ma, mb);
    FieldOrder(a.hour, ":" + ma, b.hour, ":" + mb);
  }

  /** Text order is chronological order. */
  lemma IsoOrderIsChronological(a: Stamp, b: Stamp)
    requires ValidStamp(a) && ValidStamp(b)
    ensures TextLess(IsoFormat(a), IsoFormat(b)) <==> Before(a, b)
  {
    TimeOrder(a, b);
    SeparatorOrder("T", TimeText(a), TimeText(b));
    var da, db := TwoDigits(a.day) + ("T" + TimeText(a)), TwoDigits(b.day) + ("T" + TimeText(b));
    FieldOrder(a.day, "T" + TimeText(a), b.day, "T" + TimeText(b));
    SeparatorOrder("-", da, db);
    var ma, mb := TwoDigits(a.month) + ("-" + da), TwoDigits(b.month) + ("-" + db);
    FieldOrder(a.month, "-" + da, b.month, "-" + db);
    SeparatorOrder("-", ma, mb);
    FieldOrder(a.year % 100, "-" + ma, b.year % 100, "-" + mb);
    FieldOrder(a.year / 100, TwoDigits(a.year % 100) + ("-" + ma), b.year / 100, TwoDigits(b.year % 100) + ("-" + mb));
  }

  /** A text names one instant. */
  lemma IsoIsInjective(a: Stamp, b: Stamp)
    requires ValidStamp(a) && ValidStamp(b) && IsoFormat(a) == IsoFormat(b)
    ensures a == b
  {
    Irreflexive(IsoFormat(a));
    IsoOrderIsChronological(a, b);
    IsoOrderIsChronological(b, a);
  }

  /** The number that decimal figures stand for. */
  function Figures(text: string): (n: int) {
    if text == "" then 0 else 10 * Figures(text[..|text| - 1]) + (text[|text| - 1] as int - '0' as int)
  }

  lemma TwoFigures(n: int)
    requires 0 <= n <= 99
    ensures Figures(TwoDigits(n)) == n
  {
    var text := TwoDigits(n);
    assert text[..1][..0] == "" && text[0] as int == 48 + n / 10 && text[1] as int == 48 + n % 10;
    assert Figures(text[..1]) == n / 10;
  }

  lemma FourFigures(m: int, n: int)
    requires 0 <= m <= 99 && 0 <= n <= 99
    ensures Figures(TwoDigits(m) + TwoDigits(n)) == 100 * m + n
  {
    var text := TwoDigits(m) + TwoDigits(n);
    TwoFigures(m);
    assert text[..3][..2] == TwoDigits(m);
  }

  lemma DateParts(t: Stamp)
    requires ValidStamp(t)
    ensures var text := IsoFormat(t);
            && |text| == 25 && text[11..] == TimeText(t)
            && text[..4] == TwoDigits(t.year / 100) + TwoDigits(t.year % 100)
            && text[4] == '-' && text[5..7] == TwoDigits(t.month) && text[7] == '-' && text[8..10] == TwoDigits(t.day)
            && text[10] == 'T'
  {
  }

  lemma TimeParts(t: Stamp)
    requires ValidStamp(t)
    ensures var text := TimeText(t);
            && |text| == 14
            && text[..2] == TwoDigits(t.hour) && text[2] == ':' && text[3..5] == TwoDigits(t.minute)
            && text[5] == ':' && text[6..8] == TwoDigits(t.second) && text[8..] == "+00:00"
  {
  }

  lemma TailParts(text: string, tail: string)
    requires |text| == 25 && text[11..] == tail
    ensures text[11..13] == tail[..2] && text[13] == tail[2] && text[14..16] == tail[3..5] && text[16] == tail[5]
    ensures text[17..19] == tail[6..8] && text[19..] == tail[8..]
  {
  }

  /** The text holds the fields as decimal figures, in the places that ISO 8601 gives them. */
  lemma IsoIsReadable(t: Stamp)
    requires ValidStamp(t)
    ensures var text := IsoFormat(t);
            && |text| == 25 && text[4] == '-' && text[7] == '-' && text[10] == 'T' && text[13] == ':' && text[16] == ':'
            && text[19..] == "+00:00"
            && t == Stamp(Figures(text[..4]), Figures(text[5..7]), Figures(text[8..10]), Figures(text[11..13]),
                          Figures(text[14..16]), Figures(text[17..19]))
  {
    DateParts(t);
    TimeParts(t);
    TailParts(IsoFormat(t), TimeText(t));
    FourFigures(t.year / 100, t.year % 100);
    TwoFigures(t.month);
    TwoFigures(t.day);
    TwoFigures(t.hour);
    TwoFigures(t.minute);
    TwoFigures(t.second);
  }
}
