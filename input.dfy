/**
 * What the user types or taps, read the way the bot reads it: `int(text)`
 * for a feeding amount, `text.replace(',', '.')` before the float parse of
 * a temperature, and `split("_")` on the data of a diaper button.
 */
module Input {
  import opened Wrappers
  import opened Decimal

  /** The digits of a Python integer literal: single underscores may stand between digits. */
  predicate IsNumeral(s: string)
  {
    && |s| > 0
    && (forall i :: 0 <= i < |s| ==> IsDigit(s[i]) || s[i] == '_')
    && (forall i :: 0 <= i < |s| && s[i] == '_' ==> 0 < i < |s| - 1 && IsDigit(s[i - 1]) && IsDigit(s[i + 1]))
  }

  /** The value of a numeral, its underscores skipped. */
  function NumeralValue(s: string): nat
  {
    if s == [] then 0
    else if IsDigit(s[|s| - 1]) then 10 * NumeralValue(s[..|s| - 1]) + DigitValue(s[|s| - 1])
    else NumeralValue(s[..|s| - 1])
  }

  /**
   * `int(text)` on text that has already been stripped: an optional sign and
   * a numeral; anything else raises `ValueError`, modelled as `None`.
   */
  function ParseInt(text: string): (r: Option<int>)
    ensures text == [] ==> r == None
    ensures r.Some? ==> IsDigit(text[|text| - 1])
  {
    if |text| > 0 && (text[0] == '+' || text[0] == '-') then
      if IsNumeral(text[1..]) then
        var v: int := NumeralValue(text[1..]);
        Some(if text[0] == '-' then -v else v)
      else None
    else if IsNumeral(text) then Some(NumeralValue(text))
    else None
  }

  /** `str(n)` for a natural number. */
  function NatToString(n: nat): (r: string)
    ensures |r| > 0
  {
    if n < 10 then [DigitChar(n)] else NatToString(n / 10) + [DigitChar(n % 10)]
  }

  /** `str(n)` for any integer. */
  function IntToString(n: int): string
  {
    if n < 0 then "-" + NatToString(-n) else NatToString(n)
  }

  lemma {:induction false} NatToStringIsNumeral(n: nat)
    ensures IsNumeral(NatToString(n))
    ensures NumeralValue(NatToString(n)) == n
    ensures IsDigit(NatToString(n)[0])
  {
    var s := NatToString(n);
    if n >= 10 {
      NatToStringIsNumeral(n / 10);
      assert s[..|s| - 1] == NatToString(n / 10);
    } else {
      assert s[..0] == [];
    }
  }

  /** Whatever number the bot prints back, `int` reads as that number. */
  lemma ParseIntRoundTrip(n: int)
    ensures ParseInt(IntToString(n)) == Some(n)
  {
    if n < 0 {
      NatToStringIsNumeral(-n);
      assert IntToString(n)[1..] == NatToString(-n);
    } else {
      NatToStringIsNumeral(n);
    }
  }

  /** Two numerals written one after the other, with or without one `_` between them, form a numeral. */
  lemma NumeralJoin(x: string, y: string)
    requires IsNumeral(x) && IsNumeral(y)
    ensures IsNumeral(x + y) && IsNumeral(x + "_" + y)
  {
  }

  lemma {:induction false} UnderscoreSkipped(x: string, y: string)
    ensures NumeralValue(x + "_" + y) == NumeralValue(x + y)
    decreases |y|
  {
    var u, s := x + "_" + y, x + y;
    if y == [] {
      assert u[..|u| - 1] == x && s == x;
    } else {
      assert u[..|u| - 1] == x + "_" + y[..|y| - 1];
      assert s[..|s| - 1] == x + y[..|y| - 1];
      UnderscoreSkipped(x, y[..|y| - 1]);
    }
  }

  /** Underscores between digits are accepted and skipped, as in `int("1_000") == 1000`. */
  lemma ParseIntSkipsUnderscores(a: nat, b: nat)
    ensures var x, y := NatToString(a), NatToString(b);
            ParseInt(x + "_" + y) == Some(NumeralValue(x + y))
  {
    var x, y := NatToString(a), NatToString(b);
    NatToStringIsNumeral(a);
    NatToStringIsNumeral(b);
    NumeralJoin(x, y);
    UnderscoreSkipped(x, y);
    assert (x + "_" + y)[0] == x[0];
  }

  /** `s.split(sep)`: the fields between the separators; there is always at least one. */
  function Split(s: string, sep: char): (r: seq<string>)
    ensures |r| >= 1
  {
    if s == [] then [""]
    else
      var rest := Split(s[1..], sep);
      if s[0] == sep then [""] + rest
      else [[s[0]] + rest[0]] + rest[1..]
  }

  /** No field contains the separator. */
  lemma {:induction false} SplitFieldsAreClean(s: string, sep: char)
    ensures forall f | f in Split(s, sep) :: sep !in f
  {
    if s != [] {
      SplitFieldsAreClean(s[1..], sep);
      var rest := Split(s[1..], sep);
      if s[0] != sep {
        assert forall f | f in rest[1..] :: f in rest;
        assert sep !in [s[0]] + rest[0];
      }
    }
  }

  /** `sep.join(fields)`. */
  function Join(fields: seq<string>, sep: char): string
  {
    if fields == [] then ""
    else if |fields| == 1 then fields[0]
    else fields[0] + [sep] + Join(fields[1..], sep)
  }

  /** Joining the fields with the separator gives back the text that was split. */
  lemma {:induction false} JoinSplit(s: string, sep: char)
    ensures Join(Split(s, sep), sep) == s
  {
    if s != [] {
      JoinSplit(s[1..], sep);
      var rest := Split(s[1..], sep);
      if s[0] == sep {
        assert ([""] + rest)[1..] == rest;
      } else if |rest| > 1 {
        assert ([[s[0]] + rest[0]] + rest[1..])[1..] == rest[1..];
      }
    }
  }

  lemma {:induction false} SplitWithoutSeparator(s: string, sep: char)
    requires sep !in s
    ensures Split(s, sep) == [s]
  {
    if s != [] {
      SplitWithoutSeparator(s[1..], sep);
      assert [s[0]] + s[1..] == s;
    }
  }

  lemma {:induction false} SplitAtFirst(x: string, rest: string, sep: char)
    requires sep !in x
    ensures Split(x + [sep] + rest, sep) == [x] + Split(rest, sep)
  {
    var s := x + [sep] + rest;
    if x == [] {
      assert s[1..] == rest;
    } else {
      assert s[1..] == x[1..] + [sep] + rest;
      SplitAtFirst(x[1..], rest, sep);
      assert [x[0]] + x[1..] == x;
    }
  }

  const DiaperPrefix := "diaper_"

  /** The data a diaper button carries: `callback_data="diaper_pooped"` and its two siblings. */
  function CallbackData(diaperType: string): string
  {
    DiaperPrefix + diaperType
  }

  /**
   * `handle_callback`: data starting with `diaper_` names a diaper change
   * whose type is the second `_`-separated field; other data is ignored.
   */
  function ParseCallback(data: string): (r: Option<string>)
    ensures r.Some? <==> |data| >= |DiaperPrefix| && data[..|DiaperPrefix|] == DiaperPrefix
    ensures r.Some? ==> '_' !in r.value
  {
    if |data| >= |DiaperPrefix| && data[..|DiaperPrefix|] == DiaperPrefix then
      assert data == "diaper" + ['_'] + data[|DiaperPrefix|..];
      SplitAtFirst("diaper", data[|DiaperPrefix|..], '_');
      SplitFieldsAreClean(data, '_');
      Some(Split(data, '_')[1])
    else None
  }

  /** The type a button was built with is the type read back from it, for any type without `_`. */
  lemma CallbackRoundTrip(diaperType: string, more: string)
    requires '_' !in diaperType
    ensures ParseCallback(CallbackData(diaperType)) == Some(diaperType)
    ensures ParseCallback(CallbackData(diaperType) + "_" + more) == Some(diaperType)
  {
    var data := CallbackData(diaperType);
    assert data[..|DiaperPrefix|] == DiaperPrefix;
    assert data == "diaper" + ['_'] + diaperType;
    SplitAtFirst("diaper", diaperType, '_');
    SplitWithoutSeparator(diaperType, '_');
    var longer := data + "_" + more;
    assert longer[..|DiaperPrefix|] == DiaperPrefix;
    assert longer == "diaper" + ['_'] + (diaperType + ['_'] + more);
    SplitAtFirst("diaper", diaperType + ['_'] + more, '_');
    SplitAtFirst(diaperType, more, '_');
  }

  /** `text.replace(',', '.')`: a decimal comma becomes a decimal point, nothing else moves. */
  function ReplaceComma(text: string): (r: string)
    ensures |r| == |text|
    ensures forall i :: 0 <= i < |text| ==> r[i] == if text[i] == ',' then '.' else text[i]
    ensures ',' !in r
  {
    if text == [] then ""
    else [if text[0] == ',' then '.' else text[0]] + ReplaceComma(text[1..])
  }
}
