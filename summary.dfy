/**
 * The `/today` overview: today's sorted records split by their `type`
 * into bottle feedings, temperature readings and diaper changes, the day's
 * total of milk, and the two "nothing recorded" replies.
 */
module Summary {
  import opened Wrappers
  import opened Events
  import opened EventLog
  import opened TimeSort
  import opened TextOrder

  /** `[event for event in events if event.get('type') == tag]`. */
  function OfType(events: seq<Event>, tag: string): (r: seq<Event>)
    ensures |r| <= |events|
    ensures forall e :: e in r <==> e in events && TypeTag(e.kind) == Some(tag)
  {
    if events == [] then []
    else (if TypeTag(events[0].kind) == Some(tag) then [events[0]] else []) + OfType(events[1..], tag)
  }

  /** The filter keeps the order of the records: filtering a concatenation filters each part. */
  lemma {:induction false} OfTypeConcat(a: seq<Event>, b: seq<Event>, tag: string)
    ensures OfType(a + b, tag) == OfType(a, tag) + OfType(b, tag)
  {
    if a != [] {
      assert (a + b)[0] == a[0] && (a + b)[1..] == a[1..] + b;
      OfTypeConcat(a[1..], b, tag);
    } else {
      assert a + b == b;
    }
  }

  /** `sum(feeding["amount_ml"] for feeding in feedings)`. */
  function TotalMl(feedings: seq<Event>): int
    requires forall e | e in feedings :: e.kind.Drink?
  {
    if feedings == [] then 0 else feedings[0].kind.amountMl + TotalMl(feedings[1..])
  }

  /** What one record adds to the day's milk total. */
  function MlOf(e: Event): int
  {
    if e.kind.Drink? then e.kind.amountMl else 0
  }

  /** The day's milk: the amounts of every drink record, and nothing from any other record. */
  function DrinkTotal(events: seq<Event>): int
  {
    if events == [] then 0 else MlOf(events[0]) + DrinkTotal(events[1..])
  }

  lemma {:induction false} DrinkTotalConcat(a: seq<Event>, b: seq<Event>)
    ensures DrinkTotal(a + b) == DrinkTotal(a) + DrinkTotal(b)
  {
    if a != [] {
      assert (a + b)[0] == a[0] && (a + b)[1..] == a[1..] + b;
      DrinkTotalConcat(a[1..], b);
    } else {
      assert a + b == b;
    }
  }

  /** The total the overview prints is the sum over exactly the day's drink records. */
  lemma {:induction false} FeedingTotalIsDrinkTotal(events: seq<Event>)
    ensures TotalMl(OfType(events, "drink")) == DrinkTotal(events)
  {
    if events != [] {
      FeedingTotalIsDrinkTotal(events[1..]);
      var head := if events[0].kind.Drink? then [events[0]] else [];
      var rest := OfType(events[1..], "drink");
      assert OfType(events, "drink") == head + rest;
      if head != [] {
        assert (head + rest)[1..] == rest;
      } else {
        assert head + rest == rest;
      }
    }
  }

  lemma {:induction false} InsertKeepsDrinkTotal(s: seq<Event>, e: Event)
    ensures DrinkTotal(Insert(s, e)) == DrinkTotal(s) + MlOf(e)
    decreases |s|
  {
    if s == [] || !StrLt(e.time, s[|s| - 1].time) {
      DrinkTotalConcat(s, [e]);
    } else {
      var init, last := s[..|s| - 1], s[|s| - 1];
      InsertKeepsDrinkTotal(init, e);
      DrinkTotalConcat(Insert(init, e), [last]);
      assert s == init + [last];
      DrinkTotalConcat(init, [last]);
    }
  }

  /** Sorting the bucket by time does not change the day's milk total. */
  lemma {:induction false} SortKeepsDrinkTotal(s: seq<Event>)
    ensures DrinkTotal(SortByTime(s)) == DrinkTotal(s)
  {
    if s != [] {
      var init, last := s[..|s| - 1], s[|s| - 1];
      SortKeepsDrinkTotal(init);
      InsertKeepsDrinkTotal(SortByTime(init), last);
      assert s == init + [last];
      DrinkTotalConcat(init, [last]);
    }
  }

  /** How many records carry none of the three known tags. */
  function UntypedCount(events: seq<Event>): nat
  {
    if events == [] then 0 else (if events[0].kind.Untyped? then 1 else 0) + UntypedCount(events[1..])
  }

  /** Every record lands in exactly one of the three lists unless its tag is unknown. */
  lemma {:induction false} SplitAccountsForEveryRecord(events: seq<Event>)
    ensures |OfType(events, "drink")| + |OfType(events, "temperature")| + |OfType(events, "diaper")|
            + UntypedCount(events) == |events|
  {
    if events != [] {
      SplitAccountsForEveryRecord(events[1..]);
    }
  }

  /** The reply to `/today`. */
  datatype Report =
    | NothingToday                     // the day has no bucket or an empty one
    | NothingKnownToday(date: string)  // records exist but none has a known tag
    | Overview(date: string, feedings: seq<Event>, totalMl: int,
               temperatures: seq<Event>, diaperChanges: seq<Event>)

  /**
   * The overview of a day's (sorted) records. The total is printed only
   * when there are feedings; with none it is 0 and not shown.
   */
  function Summarize(date: string, events: seq<Event>): (r: Report)
    ensures r.NothingToday? <==> events == []
    ensures r.NothingKnownToday? <==> events != [] && forall e | e in events :: e.kind.Untyped?
    ensures !r.NothingToday? ==> r.date == date
    ensures r.Overview? ==> && r.feedings == OfType(events, "drink")
                            && r.temperatures == OfType(events, "temperature")
                            && r.diaperChanges == OfType(events, "diaper")
                            && r.totalMl == DrinkTotal(events)
  {
    if events == [] then NothingToday
    else
      var feedings := OfType(events, "drink");
      var temperatures := OfType(events, "temperature");
      var diaperChanges := OfType(events, "diaper");
      if feedings == [] && temperatures == [] && diaperChanges == [] then
        NothingKnownToday(date)
      else
        var known := if feedings != [] then feedings[0]
                       else if temperatures != [] then temperatures[0] else diaperChanges[0];
        assert known in events && !known.kind.Untyped?;
        FeedingTotalIsDrinkTotal(events);
        Overview(date, feedings, TotalMl(feedings), temperatures, diaperChanges)
  }

  /**
   * Logging a feeding of `amountMl` today raises the total that `/today`
   * prints by exactly that amount, whatever order the bucket was in.
   */
  lemma FeedingRaisesTodaysTotal(log: Log, date: string, time: string, user: string, amountMl: int)
    ensures var after := SortByTime(Bucket(Appended(log, date, Event(time, Drink(amountMl), user)), date));
            Summarize(date, after).Overview?
            && Summarize(date, after).totalMl == DrinkTotal(Bucket(log, date)) + amountMl
  {
    var e := Event(time, Drink(amountMl), user);
    var bucket := Bucket(Appended(log, date, e), date);
    SortKeepsDrinkTotal(bucket);
    DrinkTotalConcat(Bucket(log, date), [e]);
    SortByTimePermutes(bucket);
    var after := SortByTime(bucket);
    assert e in multiset(after);
    assert e in after;
  }

  /** The display name of a `diaper_type`: the three known types have fixed labels, any other is shown as it is. */
  function DiaperName(diaperType: string): (r: string)
    ensures diaperType == "pooped" ==> r == "💩 Gepoept"
    ensures diaperType == "peed" ==> r == "💧 Geplast"
    ensures diaperType == "both" ==> r == "🧷 Beiden"
    ensures diaperType !in {"pooped", "peed", "both"} ==> r == diaperType
  {
    var names := map["pooped" := "💩 Gepoept", "peed" := "💧 Geplast", "both" := "🧷 Beiden"];
    if diaperType in names then names[diaperType] else diaperType
  }
}
