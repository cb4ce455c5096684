/** The printed settings record token by token, and what the converters make of any number. */
module SettingsText {
  import opened PtpTypes
  import opened Text
  import opened Settings

  /** The tokens of printed lines alternate between names and values. */
  lemma {:induction false} LineTokens(name: Key -> string, keys: seq<Key>, values: seq<string>)
    requires |values| == |keys| && forall i :: 0 <= i < |keys| ==> FitsLine(name(keys[i])) && Token(values[i])
    ensures var ts := Fields(RecordLines(name, keys, values));
            && |ts| == 2 * |keys|
            && forall i :: 0 <= i < |keys| ==> ts[2 * i] == name(keys[i]) && ts[2 * i + 1] == values[i]
    decreases keys
  {
    if keys != [] {
      var rest := Fields(RecordLines(name, keys[1..], values[1..]));
      var ts := Fields(RecordLines(name, keys, values));
      assert ts == [name(keys[0]), values[0]] + rest by {
        LineFields(name(keys[0]), values[0], RecordLines(name, keys[1..], values[1..]));
      }
      LineTokens(name, keys[1..], values[1..]);
      forall i | 0 <= i < |keys| ensures ts[2 * i] == name(keys[i]) && ts[2 * i + 1] == values[i] {
        if i > 0 {
          assert ts[2 * i] == rest[2 * (i - 1)] && ts[2 * i + 1] == rest[2 * (i - 1) + 1];
          assert keys[1..][i - 1] == keys[i] && values[1..][i - 1] == values[i];
        }
      }
    }
  }

  lemma {:induction false} PrintedPair(g: Settings, i: nat)
    requires InRange(g) && i < 11
    ensures var ts := Fields(Print(g));
            |ts| == 22 && ts[2 * i] == Name(KEYS[i]) && ts[2 * i + 1] == Value(g, KEYS[i])
  {
    forall j | 0 <= j < |KEYS| ensures FitsLine(Name(KEYS[j])) && Token(Values(g)[j]) {
      NameFits(KEYS[j]);
      ValueIsToken(g, KEYS[j]);
    }
    LineTokens(Name, KEYS, Values(g));
  }

  /** The clock quality: decimal class, hexadecimal accuracy and variance, and the decimal UTC offset. */
  lemma {:induction false} PrintedQuality(g: Settings)
    requires InRange(g)
    ensures var ts := Fields(Print(g));
            && |ts| == 22
            && ts[0] == "clockClass" && ts[1] == Digits(g.clockClass, Ten)
            && ts[2] == "clockAccuracy" && ts[3] == "0x" + Digits(g.clockAccuracy, Sixteen)
            && ts[4] == "offsetScaledLogVariance" && ts[5] == "0x" + Digits(g.logVariance, Sixteen)
            && ts[6] == "currentUtcOffset"
            && ts[7] == (if g.utcOffset < 0 then "-" + Digits(-g.utcOffset, Ten) else Digits(g.utcOffset, Ten))
  {
    var ts := Fields(Print(g));
    assert |ts| == 22 && ts[0] == "clockClass" && ts[1] == Digits(g.clockClass, Ten) by { PrintedPair(g, 0); }
    assert |ts| == 22 && ts[2] == "clockAccuracy" && ts[3] == "0x" + Digits(g.clockAccuracy, Sixteen) by { PrintedPair(g, 1); }
    assert |ts| == 22 && ts[4] == "offsetScaledLogVariance" && ts[5] == "0x" + Digits(g.logVariance, Sixteen) by { PrintedPair(g, 2); }
    assert |ts| == 22 && ts[6] == "currentUtcOffset" && ts[7] == Decimal(g.utcOffset) by { PrintedPair(g, 3); }
  }

  function Flag(b: bool): string {
    if b then "1" else "0"
  }

  /** The leap flags, each by its own name. */
  lemma {:induction false} PrintedLeap(g: Settings)
    requires InRange(g)
    ensures var ts := Fields(Print(g));
            && |ts| == 22
            && ts[8] == "leap61" && ts[9] == Flag(g.leap61)
            && ts[10] == "leap59" && ts[11] == Flag(g.leap59)
  {
    var ts := Fields(Print(g));
    assert |ts| == 22 && ts[8] == "leap61" && ts[9] == Flag(g.leap61) by { PrintedPair(g, 4); }
    assert ts[10] == "leap59" && ts[11] == Flag(g.leap59) by { PrintedPair(g, 5); }
  }

  lemma {:induction false} PrintedValidity(g: Settings)
    requires InRange(g)
    ensures var ts := Fields(Print(g));
            && |ts| == 22
            && ts[12] == "currentUtcOffsetValid" && ts[13] == Flag(g.utcOffsetValid)
            && ts[14] == "ptpTimescale" && ts[15] == Flag(g.ptpTimescale)
  {
    var ts := Fields(Print(g));
    assert |ts| == 22 && ts[12] == "currentUtcOffsetValid" && ts[13] == Flag(g.utcOffsetValid) by { PrintedPair(g, 6); }
    assert ts[14] == "ptpTimescale" && ts[15] == Flag(g.ptpTimescale) by { PrintedPair(g, 7); }
  }

  /** Traceability and the hexadecimal time source. */
  lemma {:induction false} PrintedTraceability(g: Settings)
    requires InRange(g)
    ensures var ts := Fields(Print(g));
            && |ts| == 22
            && ts[16] == "timeTraceable" && ts[17] == Flag(g.timeTraceable)
            && ts[18] == "frequencyTraceable" && ts[19] == Flag(g.frequencyTraceable)
            && ts[20] == "timeSource" && ts[21] == "0x" + Digits(g.timeSource, Sixteen)
  {
    var ts := Fields(Print(g));
    assert |ts| == 22 && ts[16] == "timeTraceable" && ts[17] == Flag(g.timeTraceable) by { PrintedPair(g, 8); }
    assert |ts| == 22 && ts[18] == "frequencyTraceable" && ts[19] == Flag(g.frequencyTraceable) by { PrintedPair(g, 9); }
    assert |ts| == 22 && ts[20] == "timeSource" && ts[21] == "0x" + Digits(g.timeSource, Sixteen) by { PrintedPair(g, 10); }
  }

  // ---------------------------------------------------------------- converters on any number

  /** A number too large for its field becomes the largest value of the field. */
  lemma {:induction false} ConvertersClamp(n: nat, i: int)
    ensures ToByte(Digits(n, Ten)) == if n <= 255 then n else 255
    ensures ToHex("0x" + Digits(n, Sixteen), 0xFF) == if n <= 255 then n else 255
    ensures ToHex("0x" + Digits(n, Sixteen), 0xFFFF) == if n <= 65535 then n else 65535
    ensures ToInt32(Decimal(i)) == if i > 2147483647 then 2147483647 else if i < -2147483648 then -2147483648 else i
  {
    DigitsRoundTrip(n, Ten);
    DigitsRoundTrip(n, Sixteen);
    assert ("0x" + Digits(n, Sixteen))[2..] == Digits(n, Sixteen);
    ParseDecimal(i);
  }
}
