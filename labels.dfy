/** The text labels on the screen and the `message` callback of the MQTT
    client, which writes a new reading into the label of its feed and
    stamps the "last updated" label with the software clock's time. */
module Labels {
  import opened Text
  import opened TimeConvert
  import opened SoftClock

  const TemperatureTopic: string := "plant-temperature"
  const HumidityTopic: string := "plant-humidity"
  const GasTopic: string := "plant-gas-index"

  /** The unit after each reading: degrees Fahrenheit, percent, ohms. */
  const TemperatureUnit: string := " F\U{00B0}"
  const HumidityUnit: string := " %"
  const GasUnit: string := " \U{03A9}"

  const TimePrefix: string := "Last updated at "

  predicate IsReadingTopic(topic: string)
  {
    topic == TemperatureTopic || topic == HumidityTopic || topic == GasTopic
  }

  /** The three feed names differ (in their seventh character), so a
      message matches at most one of the `if`s of the callback. */
  lemma TopicsDistinct()
    ensures TemperatureTopic != HumidityTopic && HumidityTopic != GasTopic && GasTopic != TemperatureTopic
  {
    assert TemperatureTopic[6] == 't' && HumidityTopic[6] == 'h' && GasTopic[6] == 'g';
  }

  /** A message payload as the callback sees it: one whose conversion
      succeeds, given by the integer it rounds to for display (for
      temperature, after the conversion to Fahrenheit), or one whose
      conversion raises `ValueError` (a text `float()` rejects, or "nan",
      which `float()` accepts and `round()` rejects). */
  datatype Reading = Number(value: int) | Malformed

  /** `f"{v}{unit}"`. */
  function ReadingText(v: int, unit: string): (t: string)
    ensures |t| > |unit| && t[|t| - |unit|..] == unit
    ensures t[0] == '-' <==> v < 0
  {
    DecimalString(v) + unit
  }

  /** `f"Last updated at {hour}:{minute:02} {am_pm}"`. */
  function TimeLabel(hour: int, minute: int, amPm: string): (l: string)
    ensures |l| >= |TimePrefix| + 5 + |amPm| && l[..|TimePrefix|] == TimePrefix
    ensures l[|l| - |amPm|..] == amPm
  {
    var middle := DecimalString(hour) + ":" + Pad2(minute) + " ";
    var l := TimePrefix + middle + amPm;
    SplitConcat(TimePrefix + middle, amPm);
    SplitConcat(TimePrefix, middle);
    assert l[..|TimePrefix|] == (TimePrefix + middle)[..|TimePrefix|];
    l
  }

  /** A reading label ends in its unit, and the text before the unit reads
      back as the reading. */
  lemma ReadingTextReadsBack(v: int, unit: string)
    ensures var t := ReadingText(v, unit);
      |t| > |unit| && t[|t| - |unit|..] == unit && ParseInt(t[..|t| - |unit|]) == v
  {
    var t := ReadingText(v, unit);
    assert t[..|t| - |unit|] == DecimalString(v);
  }

  /** For a clock in range the time label has a fixed layout: the prefix,
      the hour, a colon, exactly two minute digits, a space and the label;
      hour and minute read back from it. */
  lemma TimeLabelReadsBack(hour: int, minute: int, amPm: string)
    requires 1 <= hour <= 12 && 0 <= minute <= 59 && IsMeridiem(amPm)
    ensures var l := TimeLabel(hour, minute, amPm); var n := |l|;
      n == |TimePrefix| + |DecimalString(hour)| + 6 &&
      (n == 23 || n == 24) &&
      l[..|TimePrefix|] == TimePrefix &&
      IsDigits(l[|TimePrefix|..n - 6]) && l[|TimePrefix|] != '0' &&
      ParseInt(l[|TimePrefix|..n - 6]) == hour &&
      l[n - 6] == ':' &&
      IsDigits(l[n - 5..n - 3]) && ParseInt(l[n - 5..n - 3]) == minute &&
      l[n - 3] == ' ' &&
      l[n - 2..] == amPm
  {
    var hs, ms := DecimalString(hour), Pad2(minute);
    assert 1 <= |hs| <= 2 && |ms| == 2 && |amPm| == 2;
    Layout(hs, ms, amPm);
    var l := TimeLabel(hour, minute, amPm);
    assert l == TimePrefix + (hs + ":" + ms + " ") + amPm;
    assert l[|TimePrefix|] == l[|TimePrefix|..|l| - 6][0] == hs[0];
  }

  /** Where the parts of a time label sit, for any hour text `hs` and any
      two-character minute and label texts. */
  lemma Layout(hs: string, ms: string, a: string)
    requires |ms| == 2 && |a| == 2
    ensures var l := TimePrefix + (hs + ":" + ms + " ") + a; var n := |l|;
      n == 16 + |hs| + 6 &&
      l[..16] == TimePrefix && l[16..n - 6] == hs && l[n - 6] == ':' &&
      l[n - 5..n - 3] == ms && l[n - 3] == ' ' && l[n - 2..] == a
  {
    var tail := ":" + ms + " " + a;
    var l := TimePrefix + (hs + ":" + ms + " ") + a;
    assert l == (TimePrefix + hs) + tail;
    assert |TimePrefix| == 16 && |tail| == 6;
    var n := |l|;
    SplitConcat(TimePrefix + hs, tail);
    SplitConcat(TimePrefix, hs);
    assert l[..16] == TimePrefix by {
      assert l[..16] == (TimePrefix + hs)[..16];
    }
    assert l[16..n - 6] == hs by {
      assert l[16..n - 6] == (TimePrefix + hs)[16..];
    }
    assert l[n - 6..] == tail;
    assert tail[1..3] == ms && tail[4..] == a;
    assert l[n - 5..n - 3] == tail[1..3];
    assert l[n - 2..] == tail[4..];
  }

  lemma SplitConcat(a: string, b: string)
    ensures (a + b)[..|a|] == a && (a + b)[|a|..] == b
  {
  }

  /** The four labels whose text the program changes after start-up. */
  class Screen {
    var tempText: string
    var humidText: string
    var gasText: string
    var timeText: string

    /** The texts the labels are created with. */
    constructor ()
      ensures tempText == "N/A" && humidText == "N/A" && gasText == "N/A"
      ensures timeText == "No updates"
    {
      tempText, humidText, gasText := "N/A", "N/A", "N/A";
      timeText := "No updates";
    }

    /** `message(client, topic, message)`: a reading on one of the three
        feeds replaces that feed's label and no other; any other topic
        leaves the reading labels alone; either way the time label then
        shows the clock. A payload whose conversion raises `ValueError`
        raises before anything is written (`raised`), and the exception leaves the callback. */
    method Message(topic: string, reading: Reading, clock: Clock) returns (raised: bool)
      modifies this
      ensures raised <==> IsReadingTopic(topic) && reading.Malformed?
      ensures raised ==> unchanged(this)
      ensures !raised ==> tempText == (if topic == TemperatureTopic then ReadingText(reading.value, TemperatureUnit) else old(tempText))
      ensures !raised ==> humidText == (if topic == HumidityTopic then ReadingText(reading.value, HumidityUnit) else old(humidText))
      ensures !raised ==> gasText == (if topic == GasTopic then ReadingText(reading.value, GasUnit) else old(gasText))
      ensures !raised ==> timeText == TimeLabel(clock.hour, clock.minute, clock.amPm)
    {
      TopicsDistinct();
      var isTemp, isHumid, isGas := topic == TemperatureTopic, topic == HumidityTopic, topic == GasTopic;
      assert !(isTemp && isHumid) && !(isHumid && isGas) && !(isGas && isTemp);
      if isTemp {
        if reading.Malformed? {
          return true;
        }
        var temp := reading.value;
        tempText := ReadingText(temp, TemperatureUnit);
      }
      if isHumid {
        if reading.Malformed? {
          return true;
        }
        var humidity := reading.value;
        humidText := ReadingText(humidity, HumidityUnit);
      }
      if isGas {
        if reading.Malformed? {
          return true;
        }
        var gas := reading.value;
        gasText := ReadingText(gas, GasUnit);
      }
      assert tempText == if isTemp then ReadingText(reading.value, TemperatureUnit) else old(tempText);
      assert humidText == if isHumid then ReadingText(reading.value, HumidityUnit) else old(humidText);
      assert gasText == if isGas then ReadingText(reading.value, GasUnit) else old(gasText);
      timeText := TimeLabel(clock.hour, clock.minute, clock.amPm);
      raised := false;
    }
  }
}
