/**
 * `BabyFeedingBot`: the data file it reads and rewrites on every command,
 * the three commands that append a record to today's bucket, the two
 * queries on today's bucket, and the message and button handlers that
 * drive them. The clock reading is a parameter (`now`).
 */
module Bot {
  import opened Wrappers
  import opened Clock
  import opened Events
  import opened EventLog
  import opened TimeSort
  import opened Summary
  import opened Input
  import opened Conversation

  /** `context.user_data` of one user: the flags kept between two messages. */
  class UserData {
    var awaitingFeedingAmount: bool
    var awaitingTemperature: bool

    constructor ()
      ensures !awaitingFeedingAmount && !awaitingTemperature
    {
      awaitingFeedingAmount, awaitingTemperature := false, false;
    }

    function State(): Flags
      reads this
    {
      Flags(awaitingFeedingAmount, awaitingTemperature)
    }
  }

  class BabyFeedingBot {
    /** `authorized_user_names`: display name per user id. */
    const userNames: map<int, string>
    /** What lies at `feeding_data.json`. */
    var dataFile: DataFile

    constructor (userNames: map<int, string>, dataFile: DataFile)
      ensures this.userNames == userNames && this.dataFile == dataFile
    {
      this.userNames := userNames;
      this.dataFile := dataFile;
    }

    /** `load_feeding_data`: the stored log, or an empty one when the file is missing or unreadable. */
    function LoadFeedingData(): (log: Log)
      reads this
      ensures dataFile.Stored? ==> log == dataFile.log
      ensures !dataFile.Stored? ==> log == map[]
    {
      match dataFile
      case Stored(log) => log
      case _ => map[]
    }

    /**
     * `save_feeding_data`: writes the given log over the file; with no log
     * it writes back what it loads, so what a later load returns is unchanged.
     */
    method SaveFeedingData(feedingData: Option<Log>)
      modifies this
      ensures feedingData.Some? ==> dataFile == Stored(feedingData.value)
      ensures feedingData.None? ==> dataFile == Stored(old(LoadFeedingData()))
      ensures feedingData.None? ==> LoadFeedingData() == old(LoadFeedingData())
    {
      var data := if feedingData.Some? then feedingData.value else LoadFeedingData();
      dataFile := Stored(data);
    }

    /** `get_user_name`: the configured name, or "Unknown" for an id without one. */
    function GetUserName(userId: int): (name: string)
      ensures userId in userNames ==> name == userNames[userId]
      ensures userId !in userNames ==> name == "Unknown"
    {
      if userId in userNames then userNames[userId] else "Unknown"
    }

    /** The load, create-the-bucket, append, save sequence the three `add_*` methods share. */
    method AppendToday(now: Instant, kind: Kind, userId: int)
      modifies this
      ensures LoadFeedingData()
              == Appended(old(LoadFeedingData()), DateKey(now),
                          Event(TimeOfDay(now), kind, UserInitial(GetUserName(userId))))
    {
      var today := DateKey(now);
      var timestamp := TimeOfDay(now);
      var userInitial := UserInitial(GetUserName(userId));
      var feedingData := LoadFeedingData();
      if today !in feedingData {
        feedingData := feedingData[today := []];
      }
      feedingData := feedingData[today := feedingData[today] + [Event(timestamp, kind, userInitial)]];
      SaveFeedingData(Some(feedingData));
    }

    /** `add_feeding`: one `drink` record at the end of today's bucket. */
    method AddFeeding(amountMl: int, userId: int, now: Instant)
      modifies this
      ensures LoadFeedingData()
              == Appended(old(LoadFeedingData()), DateKey(now),
                          Event(TimeOfDay(now), Drink(amountMl), UserInitial(GetUserName(userId))))
    {
      AppendToday(now, Drink(amountMl), userId);
    }

    /** `add_diaper_change`: one `diaper` record at the end of today's bucket. */
    method AddDiaperChange(diaperType: string, userId: int, now: Instant)
      modifies this
      ensures LoadFeedingData()
              == Appended(old(LoadFeedingData()), DateKey(now),
                          Event(TimeOfDay(now), Diaper(diaperType), UserInitial(GetUserName(userId))))
    {
      AppendToday(now, Diaper(diaperType), userId);
    }

    /** `add_temperature`: one `temperature` record at the end of today's bucket. */
    method AddTemperature(celsius: real, userId: int, now: Instant)
      modifies this
      ensures LoadFeedingData()
              == Appended(old(LoadFeedingData()), DateKey(now),
                          Event(TimeOfDay(now), Temperature(celsius), UserInitial(GetUserName(userId))))
    {
      AppendToday(now, Temperature(celsius), userId);
    }

    /** `get_today_feedings`: today's bucket as stored, or nothing. */
    method GetTodayFeedings(now: Instant) returns (events: seq<Event>)
      ensures DateKey(now) in LoadFeedingData() ==> events == LoadFeedingData()[DateKey(now)]
      ensures DateKey(now) !in LoadFeedingData() ==> events == []
    {
      var today := DateKey(now);
      var feedingData := LoadFeedingData();
      events := Bucket(feedingData, today);
    }

    /**
     * `get_today_events`: today's bucket sorted in place by its `time`
     * strings: ascending, the same records, equal times in stored order.
     */
    method GetTodayEvents(now: Instant) returns (events: seq<Event>)
      ensures events == SortByTime(Bucket(LoadFeedingData(), DateKey(now)))
      ensures SortedByTime(events)
      ensures multiset(events) == multiset(Bucket(LoadFeedingData(), DateKey(now)))
      ensures forall t :: WithTime(events, t) == WithTime(Bucket(LoadFeedingData(), DateKey(now)), t)
    {
      var today := DateKey(now);
      var feedingData := LoadFeedingData();
      var bucket := Bucket(feedingData, today);
      var list := new Event[|bucket|](i requires 0 <= i < |bucket| => bucket[i]);
      assert list[..] == bucket;
      SortInPlace(list);
      events := list[..];
      SortByTimeSorted(bucket);
      SortByTimePermutes(bucket);
      forall t
        ensures WithTime(events, t) == WithTime(bucket, t)
      {
        SortByTimeStable(bucket, t);
      }
    }

    /**
     * The content of the `/today` reply, over the sorted bucket. The clock is
     * read twice: `now` picks the bucket, `replyNow` dates the reply's header.
     */
    method TodayCommand(now: Instant, replyNow: Instant) returns (report: Report)
      ensures report == Summarize(DateKey(replyNow), SortByTime(Bucket(LoadFeedingData(), DateKey(now))))
      ensures report.Overview? ==> report.totalMl == DrinkTotal(Bucket(LoadFeedingData(), DateKey(now)))
    {
      var events := GetTodayEvents(now);
      report := Summarize(DateKey(replyNow), events);
      SortKeepsDrinkTotal(Bucket(LoadFeedingData(), DateKey(now)));
    }

    /** `/toevoegen_fles`: the next message is read as an amount. */
    method BottleCommand(context: UserData)
      modifies context
      ensures context.State() == old(context.State()).(awaitingFeedingAmount := true)
    {
      context.awaitingFeedingAmount := true;
    }

    /** `/toevoegen_temp`: the next message is read as a temperature. */
    method TemperatureCommand(context: UserData)
      modifies context
      ensures context.State() == old(context.State()).(awaitingTemperature := true)
    {
      context.awaitingTemperature := true;
    }

    /**
     * `handle_message` for an authorized user's stripped text: books the
     * amount or temperature the chat is waiting for, if it is acceptable,
     * and lowers that flag; any other message leaves file and flags alone.
     */
    method HandleMessage(context: UserData, text: string, parseFloat: string -> Option<Reading>,
                         userId: int, now: Instant) returns (outcome: Outcome)
      modifies this, context
      ensures outcome == Dispatch(old(context.State()), text, parseFloat)
      ensures context.State() == NextFlags(old(context.State()), outcome)
      ensures outcome.FeedingAdded? ==>
                LoadFeedingData()
                == Appended(old(LoadFeedingData()), DateKey(now),
                            Event(TimeOfDay(now), Drink(outcome.amountMl), UserInitial(GetUserName(userId))))
      ensures outcome.TemperatureAdded? ==>
                LoadFeedingData()
                == Appended(old(LoadFeedingData()), DateKey(now),
                            Event(TimeOfDay(now), Temperature(outcome.celsius), UserInitial(GetUserName(userId))))
      ensures !outcome.FeedingAdded? && !outcome.TemperatureAdded? ==> dataFile == old(dataFile)
    {
      if context.awaitingFeedingAmount {
        var parsed := ParseInt(text);
        if parsed.None? {
          outcome := AmountNotANumber;
        } else if AcceptedAmount(parsed.value) {
          AddFeeding(parsed.value, userId, now);
          context.awaitingFeedingAmount := false;
          outcome := FeedingAdded(parsed.value);
        } else {
          outcome := AmountOutOfRange;
        }
        return;
      }
      if context.awaitingTemperature {
        var parsed := parseFloat(ReplaceComma(text));
        if parsed.None? {
          outcome := TemperatureNotANumber;
        } else if AcceptedReading(parsed.value) {
          AddTemperature(parsed.value.value, userId, now);
          context.awaitingTemperature := false;
          outcome := TemperatureAdded(parsed.value.value);
        } else {
          outcome := TemperatureOutOfRange;
        }
        return;
      }
      outcome := NotUnderstood;
    }

    /**
     * `handle_callback` for an authorized user: a `diaper_<type>` button
     * books a diaper change of that type and answers with its display name;
     * any other button changes nothing.
     */
    method HandleCallback(data: string, userId: int, now: Instant) returns (shown: Option<string>)
      modifies this
      ensures ParseCallback(data).Some? ==>
                && shown == Some(DiaperName(ParseCallback(data).value))
                && LoadFeedingData()
                   == Appended(old(LoadFeedingData()), DateKey(now),
                               Event(TimeOfDay(now), Diaper(ParseCallback(data).value),
                                     UserInitial(GetUserName(userId))))
      ensures ParseCallback(data).None? ==> shown == None && dataFile == old(dataFile)
    {
      var diaperType := ParseCallback(data);
      if diaperType.None? {
        shown := None;
        return;
      }
      var readableName := DiaperName(diaperType.value);
      AddDiaperChange(diaperType.value, userId, now);
      shown := Some(readableName);
    }
  }
}
