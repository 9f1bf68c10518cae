/**
 * The records the bot files under a day: one dictionary per event with a
 * `time` string, a `type` tag, one payload field that depends on the tag,
 * and the `user` initial of whoever logged it.
 */
module Events {
  import opened Wrappers

  /** A `type` field that is absent or names none of the three kinds the bot writes. */
  type UnknownTag = t: Option<string> | t != Some("drink") && t != Some("diaper") && t != Some("temperature")
    witness None

  datatype Kind =
    | Drink(amountMl: int)          // "type": "drink", "amount_ml"
    | Diaper(diaperType: string)    // "type": "diaper", "diaper_type"
    | Temperature(celsius: real)    // "type": "temperature", "temperature_celsius"
    | Untyped(tag: UnknownTag)      // a record read back from the file with any other tag

  datatype Event = Event(time: string, kind: Kind, user: string)

  /** `event.get('type')`. */
  function TypeTag(k: Kind): (r: Option<string>)
    ensures r == Some("drink") <==> k.Drink?
    ensures r == Some("diaper") <==> k.Diaper?
    ensures r == Some("temperature") <==> k.Temperature?
  {
    match k
    case Drink(_) => Some("drink")
    case Diaper(_) => Some("diaper")
    case Temperature(_) => Some("temperature")
    case Untyped(t) => t
  }

  /** `str.upper` on one character, for the ASCII letters. */
  function Upper(c: char): (r: char)
    ensures 'a' <= c <= 'z' ==> 'A' <= r <= 'Z' && r as int - c as int == 'A' as int - 'a' as int
    ensures !('a' <= c <= 'z') ==> r == c
  {
    if 'a' <= c <= 'z' then (c as int - 'a' as int + 'A' as int) as char else c
  }

  /** The `user` field: the upper-cased first letter of the name, or `?` for an empty name. */
  function UserInitial(name: string): (r: string)
    ensures |r| == 1
    ensures name == [] ==> r == "?"
    ensures name != [] ==> r == [Upper(name[0])]
    ensures !('a' <= r[0] <= 'z')
  {
    if name != [] then [Upper(name[0])] else "?"
  }
}
