# Baby feeding bot: the event log and its dialogues, in Dafny

This project models the part of `BabyFeedingBot` (main.py) that holds its
logic. The bot keeps one JSON file that maps each Amsterdam calendar day
(`YYYY-MM-DD`) to that day's list of records, called its bucket. There are
three kinds of record: bottle feedings (`drink`, with `amount_ml`), diaper
changes (`diaper`, with `diaper_type`) and temperature readings
(`temperature`, with `temperature_celsius`). Each record also carries a
`HH:MM:SS` time and the initial of the user who logged it. The handlers
that record or report (`/today`, a typed amount or temperature, a diaper
button) read the whole file, and those that record something write the whole
file back. `/start`, `/toevoegen_fles`, `/toevoegen_temp` and
`/toevoegen_luier` only reply or raise a flag and never touch the file.

The model covers:

- the file as a value (`EventLog.DataFile`). Loading it falls back to an
  empty log when the file is missing or unreadable, and saving overwrites it.
- the clock reading. It is a parameter (`Clock.Instant`), together with the
  two `strftime` formats the bot uses: the day key and the timestamp.
- the three append commands, which share one load, create-the-bucket,
  append and save sequence. This is `Bot.BabyFeedingBot`, a class whose
  `dataFile` field the methods update.
- the two queries on today's bucket. `get_today_events` sorts in place;
  here that is an insertion sort on an `array`, proved equal to a
  functional stable sort. The sort's key comparison is Python's `str`
  ordering (`TextOrder`), written out because Dafny's `<` on sequences
  means "proper prefix".
- the `/today` overview: the split by `type`, the milk total and the two
  "nothing recorded" replies.
- the flag-driven dialogue of `handle_message`. `int(text)` is modelled,
  and the float parse comes in as a function parameter.
- the parsing of diaper-button data in `handle_callback`.

Where the system's wider documentation and main.py differ, the model
follows main.py. main.py has no delete-last operation, no 7-day, 30-day or
all-time series, no relative "ago" formatter and no `urine` to `peed`
alias, so none of them is modelled. It also always writes full `HH:MM:SS`
timestamps.

## Model

| member | source | states |
|---|---|---|
| `Clock.TimeOfDayIsChronological` | main.py:85 | two zero-padded `%H:%M:%S` stamps compare as Python strings exactly as their instants compare in seconds of the day, so sorting a bucket by `time` puts it in wall-clock order |
| `Clock.DateKeyIdentifiesDay` | main.py:84 | two clock readings give the same `%Y-%m-%d` key iff they fall on the same year, month and day |
| `TextOrder.StrLtIsNotReverseLe` | main.py:175 | Python's `a < b` on strings holds iff `b <= a` does not |
| `TextOrder.StrLeTransitive` | main.py:175 | the string order used as the sort key is transitive |
| `TextOrder.StrLeTotal` | main.py:175 | any two time strings are comparable |
| `Events.TypeTag` | main.py:216-218 | `event.get('type')` is `drink`, `diaper` or `temperature` exactly for the record kinds the bot writes with those tags |
| `Events.UserInitial` | main.py:86-87 | the `user` field is one character: `?` for an empty name, else the upper-cased first character of the name, never a lower-case ASCII letter |
| `EventLog.Bucket` | main.py:164 | `feeding_data.get(today, [])`: the stored list, or empty for a day without a key |
| `EventLog.Appended` | main.py:92-102 | filing a record under a day adds that key if missing, leaves the old bucket as a prefix with the record appended as its last element (exactly `[e]` for a new day), and leaves every other day unchanged |
| `TimeSort.SortInPlace` | main.py:175 | the in-place sort leaves the array equal to the stable insertion sort of its old content |
| `TimeSort.SortByTimeSorted` | main.py:174-175 | the sorted bucket is ascending in `time` under Python's string order |
| `TimeSort.SortByTimePermutes` | main.py:174-175 | the sorted bucket holds exactly the records of the bucket (same multiset) |
| `TimeSort.SortByTimeStable` | main.py:174-175 | for every time string, the records with that time appear in the same order before and after the sort (`list.sort` is stable) |
| `TimeSort.SortByTimeKeepsSorted` | main.py:174-175 | a bucket already in `time` order (in wall-clock order) is returned unchanged |
| `Summary.OfType` | main.py:216-218 | each filtered list holds exactly the day's records whose `type` equals the tag |
| `Summary.OfTypeConcat` | main.py:216-218 | the filters keep the records' order: filtering a concatenation is the concatenation of the filtered parts |
| `Summary.SplitAccountsForEveryRecord` | main.py:216-218 | feedings, temperatures and diaper changes together with the untyped records account for every record of the day once |
| `Summary.FeedingTotalIsDrinkTotal` | main.py:224-225 | the printed total, `sum` of `amount_ml` over the filtered feedings, equals the sum over exactly the day's drink records |
| `Summary.SortKeepsDrinkTotal` | main.py:209-225 | sorting the bucket before summing does not change the day's milk total |
| `Summary.Summarize` | main.py:211-255 | "nothing today" iff the bucket is empty; the dated "nothing recorded" reply iff the bucket is non-empty and no record has a known type; otherwise the three filtered lists and the total over the drink records |
| `Summary.FeedingRaisesTodaysTotal` | main.py:97-102 | after a feeding of N ml is appended, `/today` shows an overview whose total is the old day's total plus N |
| `Summary.DiaperName` | main.py:242-249 | `pooped`, `peed` and `both` get their fixed labels; any other diaper type is shown as it is |
| `Input.ParseIntRoundTrip` | main.py:350 | `int` reads back any integer from its decimal text, negative ones included |
| `Input.ParseIntSkipsUnderscores` | main.py:350 | `int` accepts one `_` between digits and ignores it in the value |
| `Input.JoinSplit` | main.py:404 | joining the fields of `split("_")` with `_` gives back the callback data |
| `Input.SplitFieldsAreClean` | main.py:404 | no field of `split("_")` contains `_` |
| `Input.ParseCallback` | main.py:403-404 | data is taken as a diaper button iff it starts with `diaper_`; the diaper type then contains no `_` |
| `Input.CallbackRoundTrip` | main.py:277-281 | the diaper type a button is built with (`diaper_<type>`) is read back by the callback parser, also when more `_` fields follow |
| `Input.ReplaceComma` | main.py:369 | `replace(',', '.')` keeps the length, turns every comma into a point, changes no other character and leaves no comma |
| `Conversation.Dispatch` | main.py:347-387 | a waiting feeding dialogue takes the message before a waiting temperature dialogue; an amount is booked iff `int` parses it and it lies in 1..500; a temperature is booked iff the float parse gives a finite value in 30.0..45.0; a temperature is refused as not a number iff the float parse fails; with neither flag up the message is not understood |
| `Conversation.FlagsClearOnlyOnAcceptance` | main.py:348-383 | a flag is lowered only by the acceptance it waits for; a rejected or unparseable message leaves both flags as they were |
| `Conversation.AcceptedFeedingEndsDialogue` | main.py:356-357 | once an amount is booked, no following message books another until the dialogue is opened again |
| `Conversation.RejectedAmountCanBeRetried` | main.py:360-363 | after a rejected amount the dialogue stays open, so any amount from 1 to 500 sent next is booked |
| `Conversation.OutOfRangeAndNonNumericAmounts` | main.py:349-363 | "600" is refused as out of range and "zes" as not a number, whatever the temperature flag |
| `Bot.BabyFeedingBot.constructor` | main.py:20-29 | a bot starts with the configured names and whatever lies at the data file's path |
| `Bot.BabyFeedingBot.LoadFeedingData` | main.py:36-54 | a stored log is returned as stored; a missing or unreadable file gives the empty log |
| `Bot.BabyFeedingBot.SaveFeedingData` | main.py:68-79 | the given log replaces the file; without one, the loaded log is written back, so a later load returns the same log |
| `Bot.BabyFeedingBot.GetUserName` | main.py:56-58 | the configured name of the id, or `Unknown` |
| `Bot.BabyFeedingBot.AppendToday` | main.py:89-105 | the log after the load, append and save cycle is the old log with the record appended to today's bucket |
| `Bot.BabyFeedingBot.AddFeeding` | main.py:81-105 | the new log is the old one with a `drink` record appended to today's bucket: the current `%H:%M:%S`, the amount and the user's initial |
| `Bot.BabyFeedingBot.AddDiaperChange` | main.py:107-131 | the same for a `diaper` record carrying the diaper type |
| `Bot.BabyFeedingBot.AddTemperature` | main.py:133-157 | the same for a `temperature` record carrying the reading |
| `Bot.BabyFeedingBot.GetTodayFeedings` | main.py:159-164 | today's bucket as stored, unsorted, or empty for a day without a key |
| `Bot.BabyFeedingBot.GetTodayEvents` | main.py:166-176 | today's bucket sorted: ascending by time, a permutation of the bucket, stable for equal times; empty for a day without a key |
| `Bot.BabyFeedingBot.TodayCommand` | main.py:194-257 | the `/today` reply summarizes the sorted bucket of the day the first clock reading falls on, dated by the second clock reading, and its total equals the drink total of the bucket as stored |
| `Bot.BabyFeedingBot.BottleCommand` | main.py:306-307 | `/toevoegen_fles` raises the feeding flag and leaves the temperature flag alone |
| `Bot.BabyFeedingBot.TemperatureCommand` | main.py:326-327 | `/toevoegen_temp` raises the temperature flag and leaves the feeding flag alone |
| `Bot.BabyFeedingBot.HandleMessage` | main.py:331-387 | the branch taken is `Dispatch` of the old flags; the flags become `NextFlags`; a booked amount or temperature is appended to today's bucket; every other message leaves the file untouched |
| `Bot.BabyFeedingBot.HandleCallback` | main.py:389-421 | a `diaper_<type>` button appends a diaper record of that type and answers with its display name; any other data changes nothing |

## Left out

- Authorization (`is_authorized`, unauthorized replies), every Telegram call and reply text, the keyboards, `start_command`, `diaper_command`'s keyboard layout, `send_notification`, `post_init`, `run` and the event loop: these are plumbing over the chat platform. The handlers are modelled for an authorized user.
- telegram.py: an echo-bot wrapper with no logic of its own.
- File and JSON I/O: the file is a value, and `json.dump`/`json.load` are taken to round-trip the log. The model does not cover a file that holds valid JSON but not an object, or records that lack `time`, `amount_ml` or `diaper_type` (in the source these raise `KeyError`).
- Bot.BabyFeedingBot.SaveFeedingData: a failing write, which the source logs and swallows, is not modelled. Every save succeeds.
- Printing and logging side effects.
- Concurrency: two load, modify and save cycles that interleave can lose a record in the source. The model runs one command at a time.
- The clock and time zone: `now` is a parameter already in Amsterdam civil time, with a four-digit year. The reply's own clock reading after a record is added is not modelled. `/today` reads the clock twice, once to pick the bucket and once for the header date (main.py:220): `Bot.BabyFeedingBot.TodayCommand` takes both readings, so near midnight the header can name another day than the bucket's.
- Summer time ending: on that night Amsterdam wall-clock time runs through 02:00-02:59 twice, and `%H:%M:%S` has no fold. `Clock.Instant` has no fold either. A record made later in real time can then carry an earlier `time`, the stored bucket is not in real-time order, and the sort in `get_today_events` puts the later record first. The model's sort and its lemmas are about wall-clock order only.
- Input.ParseInt: only ASCII digits are modelled. Python's `int` also accepts other Unicode decimal digits.
- Float parsing: `float(...)` is the `parseFloat` parameter of `Conversation.Dispatch`. Its result is a `Reading`: an exact `real`, or a non-finite value that every range check rejects. Binary floating-point rounding is not modelled, and temperatures are stored as `real`.
- Events.UserInitial: only ASCII letters are upper-cased. Python's `str.upper` maps every cased letter and can return more than one character (`'ß'` gives `'SS'`).
- Summary.Summarize: the total is also computed, as 0, when there are no feedings. The source neither computes nor prints it in that case.
- The emoji and Dutch wording of replies. The only wording modelled is the diaper display names, because the callback reply and the overview both use them.
