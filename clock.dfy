/**
 * The Amsterdam wall clock the bot reads (`get_amsterdam_time`), reduced to
 * the fields `strftime` prints, and the two formats the bot uses: the date
 * key `%Y-%m-%d` and the timestamp `%H:%M:%S`.
 */
module Clock {
  import opened TextOrder
  import opened Decimal

  type Year = y: int | 1000 <= y <= 9999 witness 2000
  type Month = m: int | 1 <= m <= 12 witness 1
  type Day = d: int | 1 <= d <= 31 witness 1
  type Hour = h: int | 0 <= h < 24
  type Minute = m: int | 0 <= m < 60
  type Second = s: int | 0 <= s < 60

  /** One reading of the clock, already converted to Amsterdam civil time. */
  datatype Instant = Instant(year: Year, month: Month, day: Day, hour: Hour, minute: Minute, second: Second)

  /** A number below 100 printed with two digits, as `%m`, `%d`, `%H`, `%M` and `%S` do. */
  function Pad2(n: int): (r: string)
    requires 0 <= n < 100
    ensures |r| == 2
  {
    [DigitChar(n / 10), DigitChar(n % 10)]
  }

  /** A four-digit year, as `%Y` prints it. */
  function Pad4(n: int): (r: string)
    requires 0 <= n < 10000
    ensures |r| == 4
  {
    Pad2(n / 100) + Pad2(n % 100)
  }

  /** `strftime("%Y-%m-%d")`: the key of the day's bucket. */
  function DateKey(t: Instant): (r: string)
    ensures |r| == 10
  {
    Pad4(t.year) + "-" + Pad2(t.month) + "-" + Pad2(t.day)
  }

  /** `strftime("%H:%M:%S")`: the `time` field of a new record. */
  function TimeOfDay(t: Instant): (r: string)
    ensures |r| == 8
  {
    Pad2(t.hour) + ":" + Pad2(t.minute) + ":" + Pad2(t.second)
  }

  function SecondOfDay(t: Instant): int
  {
    t.hour * 3600 + t.minute * 60 + t.second
  }

  lemma Pad2Order(a: int, b: int)
    requires 0 <= a < 100 && 0 <= b < 100
    ensures StrLe(Pad2(a), Pad2(b)) <==> a <= b
  {
    var pa, pb := Pad2(a), Pad2(b);
    assert pa[1..] == [pa[1]] && pb[1..] == [pb[1]];
    assert StrLe(pa[1..], pb[1..]) <==> pa[1] <= pb[1] by {
      assert pa[1..][1..] == [] && pb[1..][1..] == [];
    }
    assert pa[0] < pb[0] <==> a / 10 < b / 10;
    assert pa[1] <= pb[1] <==> a % 10 <= b % 10;
    assert a <= b <==> a / 10 < b / 10 || (a / 10 == b / 10 && a % 10 <= b % 10);
  }

  lemma Pad2Injective(a: int, b: int)
    requires 0 <= a < 100 && 0 <= b < 100
    ensures Pad2(a) == Pad2(b) <==> a == b
  {
  }

  lemma Pad4Injective(a: int, b: int)
    requires 0 <= a < 10000 && 0 <= b < 10000
    ensures Pad4(a) == Pad4(b) <==> a == b
  {
    if Pad4(a) == Pad4(b) {
      assert Pad4(a)[..2] == Pad2(a / 100) && Pad4(b)[..2] == Pad2(b / 100);
      assert Pad4(a)[2..] == Pad2(a % 100) && Pad4(b)[2..] == Pad2(b % 100);
      Pad2Injective(a / 100, b / 100);
      Pad2Injective(a % 100, b % 100);
    }
  }

  /**
   * Two timestamps of the same day compare as strings exactly as the
   * instants compare in wall-clock time: sorting a day's records by their
   * `time` string puts them in wall-clock order.
   */
  lemma TimeOfDayIsChronological(s: Instant, t: Instant)
    ensures StrLe(TimeOfDay(s), TimeOfDay(t)) <==> SecondOfDay(s) <= SecondOfDay(t)
  {
    var colon := ":";
    var restS := colon + Pad2(s.minute) + colon + Pad2(s.second);
    var restT := colon + Pad2(t.minute) + colon + Pad2(t.second);
    assert TimeOfDay(s) == Pad2(s.hour) + restS;
    assert TimeOfDay(t) == Pad2(t.hour) + restT;
    StrLeConcat(Pad2(s.hour), restS, Pad2(t.hour), restT);
    Pad2Injective(s.hour, t.hour);
    Pad2Order(s.hour, t.hour);

    var secS := colon + Pad2(s.second);
    var secT := colon + Pad2(t.second);
    assert restS == colon + (Pad2(s.minute) + secS);
    assert restT == colon + (Pad2(t.minute) + secT);
    StrLeConcat(colon, Pad2(s.minute) + secS, colon, Pad2(t.minute) + secT);
    StrLeConcat(Pad2(s.minute), secS, Pad2(t.minute), secT);
    Pad2Injective(s.minute, t.minute);
    Pad2Order(s.minute, t.minute);

    StrLeConcat(colon, Pad2(s.second), colon, Pad2(t.second));
    Pad2Order(s.second, t.second);
  }

  /** Two readings of the clock share a bucket exactly when they fall on the same day. */
  lemma DateKeyIdentifiesDay(s: Instant, t: Instant)
    ensures DateKey(s) == DateKey(t) <==> s.year == t.year && s.month == t.month && s.day == t.day
  {
    if DateKey(s) == DateKey(t) {
      assert DateKey(s)[..4] == Pad4(s.year) && DateKey(t)[..4] == Pad4(t.year);
      assert DateKey(s)[5..7] == Pad2(s.month) && DateKey(t)[5..7] == Pad2(t.month);
      assert DateKey(s)[8..] == Pad2(s.day) && DateKey(t)[8..] == Pad2(t.day);
      Pad4Injective(s.year, t.year);
      Pad2Injective(s.month, t.month);
      Pad2Injective(s.day, t.day);
    }
  }
}
