/** The line parser of the USB serial reader (app/common/usb_reader.py):
    a Pico line `voltage,current` becomes a time-stamped reading. The
    clock reading and Python's `float()` are parameters. */
module UsbReader {
  import opened Wrappers
  import opened Text

  /** The dictionary `parse_data` emits. */
  datatype Reading = Reading(timestamp: string, voltage: real, current: real)

  /** `parse_data(line)`: voltage from the first comma-separated field and
      current from the second, each stripped; `None` when there are fewer
      than two fields or either is not a number. `parseFloat` is `float()`,
      `None` where it raises `ValueError`. */
  function ParseData(line: string, timestamp: string, parseFloat: string -> Option<real>): (r: Option<Reading>)
    ensures r.Some? ==> ',' in line && r.value.timestamp == timestamp
  {
    var parts := Split(line, ',');
    if |parts| < 2 then None
    else
      match parseFloat(Strip(parts[0]))
      case None => None
      case Some(voltage) =>
        match parseFloat(Strip(parts[1]))
        case None => None
        case Some(current) =>
          SplitLength(line, ',');
          CountPositive(line, ',');
          Some(Reading(timestamp, voltage, current))
  }

  /** A character counted at least once occurs. */
  lemma {:induction false} CountPositive(s: string, c: char)
    requires Count(s, c) > 0
    ensures c in s
  {
    if s[0] != c {
      CountPositive(s[1..], c);
    }
  }

  /** A line without a comma is a single field and gives no reading. */
  lemma NoCommaNoReading(line: string, timestamp: string, parseFloat: string -> Option<real>)
    requires ',' !in line
    ensures ParseData(line, timestamp, parseFloat).None?
  {
    SplitSingle(line, ',');
  }

  /** The round trip: writing two numbers as `voltage,current` and parsing
      the line gives them back. */
  lemma ParseFormattedLine(v: string, c: string, timestamp: string, parseFloat: string -> Option<real>,
                           voltage: real, current: real)
    requires ',' !in v && ',' !in c
    requires parseFloat(Strip(v)) == Some(voltage) && parseFloat(Strip(c)) == Some(current)
    ensures ParseData(v + "," + c, timestamp, parseFloat) == Some(Reading(timestamp, voltage, current))
  {
    TwoFields(v, c);
  }

  lemma TwoFields(v: string, c: string)
    requires ',' !in v && ',' !in c
    ensures Split(v + "," + c, ',') == [v, c]
  {
    assert v + "," + c == v + [','] + c;
    SplitCons(v, ',', c);
    SplitSingle(c, ',');
  }

  /** Only the first two fields are read: anything after them changes
      nothing. */
  lemma ExtraFieldsIgnored(v: string, c: string, rest: string, timestamp: string, parseFloat: string -> Option<real>)
    requires ',' !in v && ',' !in c
    ensures ParseData(v + "," + c + "," + rest, timestamp, parseFloat) == ParseData(v + "," + c, timestamp, parseFloat)
  {
    assert v + "," + c + "," + rest == v + [','] + (c + [','] + rest);
    SplitCons(v, ',', c + [','] + rest);
    SplitCons(c, ',', rest);
    var parts := Split(v + "," + c + "," + rest, ',');
    assert parts == [v, c] + Split(rest, ',');
    assert parts[0] == v && parts[1] == c;
    TwoFields(v, c);
  }

  /** A field that is not a number, in either place, gives no reading. */
  lemma NonNumericNoReading(v: string, c: string, timestamp: string, parseFloat: string -> Option<real>)
    requires ',' !in v && ',' !in c
    requires parseFloat(Strip(v)).None? || parseFloat(Strip(c)).None?
    ensures ParseData(v + "," + c, timestamp, parseFloat).None?
  {
    TwoFields(v, c);
  }
}
