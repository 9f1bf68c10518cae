/**
 * The two-step dialogues of `handle_message`: `/toevoegen_fles` and
 * `/toevoegen_temp` raise a flag in the chat's `user_data`, and the next
 * plain message is read as the amount or the temperature that flag asks for.
 */
module Conversation {
  import opened Wrappers
  import opened Input

  /** `context.user_data`'s two flags; an absent key reads as false. */
  datatype Flags = Flags(awaitingFeedingAmount: bool, awaitingTemperature: bool)

  /** What `float(...)` returns: a finite value, or `nan` / `inf`, which fail any range check. */
  datatype Reading = Finite(value: real) | NotFinite

  /** Which branch a message took, and so which reply it gets. */
  datatype Outcome =
    | FeedingAdded(amountMl: int)
    | AmountOutOfRange
    | AmountNotANumber
    | TemperatureAdded(celsius: real)
    | TemperatureOutOfRange
    | TemperatureNotANumber
    | NotUnderstood

  const MaxFeedingMl := 500
  const MinCelsius: real := 30.0
  const MaxCelsius: real := 45.0

  /** `amount > 0 and amount <= 500`. */
  predicate AcceptedAmount(amount: int)
  {
    0 < amount <= MaxFeedingMl
  }

  /** `temperature >= 30.0 and temperature <= 45.0`. */
  predicate AcceptedReading(r: Reading)
  {
    r.Finite? && MinCelsius <= r.value <= MaxCelsius
  }

  /**
   * The branch `handle_message` takes for the stripped text `text`. The
   * float parse is outside the model and comes in as `parseFloat`.
   */
  function Dispatch(flags: Flags, text: string, parseFloat: string -> Option<Reading>): (o: Outcome)
    // the feeding dialogue is checked first and wins when both flags are up
    ensures flags.awaitingFeedingAmount ==> o.FeedingAdded? || o.AmountOutOfRange? || o.AmountNotANumber?
    ensures o.FeedingAdded? <==> flags.awaitingFeedingAmount && ParseInt(text).Some? && AcceptedAmount(ParseInt(text).value)
    ensures o.FeedingAdded? ==> ParseInt(text) == Some(o.amountMl) && AcceptedAmount(o.amountMl)
    ensures o.AmountNotANumber? <==> flags.awaitingFeedingAmount && ParseInt(text).None?
    ensures !flags.awaitingFeedingAmount && flags.awaitingTemperature ==>
              o.TemperatureAdded? || o.TemperatureOutOfRange? || o.TemperatureNotANumber?
    ensures o.TemperatureAdded? <==> && !flags.awaitingFeedingAmount && flags.awaitingTemperature
                                     && parseFloat(ReplaceComma(text)).Some?
                                     && AcceptedReading(parseFloat(ReplaceComma(text)).value)
    ensures o.TemperatureNotANumber? <==> && !flags.awaitingFeedingAmount && flags.awaitingTemperature
                                          && parseFloat(ReplaceComma(text)).None?
    ensures o.TemperatureAdded? ==> parseFloat(ReplaceComma(text)) == Some(Finite(o.celsius))
    ensures o.NotUnderstood? <==> !flags.awaitingFeedingAmount && !flags.awaitingTemperature
  {
    if flags.awaitingFeedingAmount then
      match ParseInt(text)
      case None => AmountNotANumber
      case Some(amount) => if AcceptedAmount(amount) then FeedingAdded(amount) else AmountOutOfRange
    else if flags.awaitingTemperature then
      match parseFloat(ReplaceComma(text))
      case None => TemperatureNotANumber
      case Some(reading) => if AcceptedReading(reading) then TemperatureAdded(reading.value) else TemperatureOutOfRange
    else NotUnderstood
  }

  /** The flags after a message: a flag is lowered only by the acceptance it was waiting for. */
  function NextFlags(flags: Flags, o: Outcome): Flags
  {
    match o
    case FeedingAdded(_) => flags.(awaitingFeedingAmount := false)
    case TemperatureAdded(_) => flags.(awaitingTemperature := false)
    case _ => flags
  }

  /**
   * A flag stays up until its dialogue accepts a value; a rejected or
   * unparseable message leaves both flags as they were.
   */
  lemma FlagsClearOnlyOnAcceptance(flags: Flags, text: string, parseFloat: string -> Option<Reading>)
    ensures var o := Dispatch(flags, text, parseFloat);
            var next := NextFlags(flags, o);
            && (next.awaitingFeedingAmount <==> flags.awaitingFeedingAmount && !o.FeedingAdded?)
            && (next.awaitingTemperature <==> flags.awaitingTemperature && !o.TemperatureAdded?)
            && (!o.FeedingAdded? && !o.TemperatureAdded? ==> next == flags)
  {
  }

  /** After an accepted amount the same message is not booked twice: the dialogue is over. */
  lemma AcceptedFeedingEndsDialogue(flags: Flags, text: string, again: string, parseFloat: string -> Option<Reading>)
    requires Dispatch(flags, text, parseFloat).FeedingAdded?
    ensures !Dispatch(NextFlags(flags, Dispatch(flags, text, parseFloat)), again, parseFloat).FeedingAdded?
  {
  }

  /** After a rejected amount the dialogue is still open, and any amount from 1 to 500 is then booked. */
  lemma RejectedAmountCanBeRetried(flags: Flags, text: string, amount: int, parseFloat: string -> Option<Reading>)
    requires flags.awaitingFeedingAmount
    requires !Dispatch(flags, text, parseFloat).FeedingAdded?
    requires AcceptedAmount(amount)
    ensures Dispatch(NextFlags(flags, Dispatch(flags, text, parseFloat)), IntToString(amount), parseFloat)
            == FeedingAdded(amount)
  {
    ParseIntRoundTrip(amount);
  }

  /** A bottle of 600 ml is refused, and so is the text "zes". */
  lemma OutOfRangeAndNonNumericAmounts(temperatureFlag: bool, parseFloat: string -> Option<Reading>)
    ensures Dispatch(Flags(true, temperatureFlag), "600", parseFloat) == AmountOutOfRange
    ensures Dispatch(Flags(true, temperatureFlag), "zes", parseFloat) == AmountNotANumber
  {
    ParseIntRoundTrip(600);
    assert IntToString(600) == "600";
    assert "zes"[2] == 's';
  }
}
