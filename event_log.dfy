/**
 * The JSON file's content: a map from the day key `YYYY-MM-DD` to that
 * day's list of records (its bucket), and the file itself.
 */
module EventLog {
  import opened Events

  type Log = map<string, seq<Event>>

  /** What is at the data file's path: nothing, something `json.load` rejects, or a stored log. */
  datatype DataFile = Missing | Unreadable | Stored(log: Log)

  /** `feeding_data.get(date, [])`. */
  function Bucket(log: Log, date: string): (r: seq<Event>)
    ensures date in log ==> r == log[date]
    ensures date !in log ==> r == []
  {
    if date in log then log[date] else []
  }

  /**
   * The log after one record is filed under `date`: the bucket is created
   * if missing and the record goes at its end; no other day changes.
   */
  function Appended(log: Log, date: string, e: Event): (r: Log)
    ensures r.Keys == log.Keys + {date}
    ensures Bucket(r, date) == Bucket(log, date) + [e]
    ensures date !in log ==> r[date] == [e]
    ensures forall d :: d != date ==> Bucket(r, d) == Bucket(log, d)
  {
    log[date := Bucket(log, date) + [e]]
  }
}
