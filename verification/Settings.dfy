/** GRANDMASTER_SETTINGS_NP: the record, its text form and the way it is read back (pkg/protocol/type.go). */
module Settings {
  import opened PtpTypes
  import opened Text

  datatype Settings = Settings(
    clockClass: int,
    clockAccuracy: int,
    logVariance: int,
    utcOffset: int,
    leap61: bool,
    leap59: bool,
    utcOffsetValid: bool,
    ptpTimescale: bool,
    timeTraceable: bool,
    frequencyTraceable: bool,
    timeSource: int)

  /** The widths of the Go fields: three uint8, a uint16 and an int32. */
  predicate InRange(g: Settings) {
    && 0 <= g.clockClass < 0x100
    && 0 <= g.clockAccuracy < 0x100
    && 0 <= g.logVariance < 0x1_0000
    && -0x8000_0000 <= g.utcOffset < 0x8000_0000
    && 0 <= g.timeSource < 0x100
  }

  /** The record a getter returns when it was never filled. */
  const ZERO := Settings(0, 0, 0, 0, false, false, false, false, false, false, 0)

  /** The record with one leap second announced. */
  function WithLeap(g: Settings, positive: bool): Settings {
    g.(leap59 := !positive, leap61 := positive)
  }

  datatype Key =
    | ClockClass | ClockAccuracy | LogVariance | UtcOffset | Leap61 | Leap59 | UtcOffsetValid
    | PtpTimescale | TimeTraceable | FrequencyTraceable | TimeSource

  /** Keys: the order of the PMC answer. */
  const KEYS := [ClockClass, ClockAccuracy, LogVariance, UtcOffset, Leap61, Leap59, UtcOffsetValid,
                 PtpTimescale, TimeTraceable, FrequencyTraceable, TimeSource]

  function Name(k: Key): string {
    match k
    case ClockClass => "clockClass"
    case ClockAccuracy => "clockAccuracy"
    case LogVariance => "offsetScaledLogVariance"
    case UtcOffset => "currentUtcOffset"
    case Leap61 => "leap61"
    case Leap59 => "leap59"
    case UtcOffsetValid => "currentUtcOffsetValid"
    case PtpTimescale => "ptpTimescale"
    case TimeTraceable => "timeTraceable"
    case FrequencyTraceable => "frequencyTraceable"
    case TimeSource => "timeSource"
  }

  // ---------------------------------------------------------------- printing

  function Bit(b: bool): string {
    if b then "1" else "0"
  }

  function Hex(n: nat): string {
    "0x" + Digits(n, Sixteen)
  }

  function Value(g: Settings, k: Key): string
    requires InRange(g)
  {
    match k
    case ClockClass => Decimal(g.clockClass)
    case ClockAccuracy => Hex(g.clockAccuracy)
    case LogVariance => Hex(g.logVariance)
    case UtcOffset => Decimal(g.utcOffset)
    case Leap61 => Bit(g.leap61)
    case Leap59 => Bit(g.leap59)
    case UtcOffsetValid => Bit(g.utcOffsetValid)
    case PtpTimescale => Bit(g.ptpTimescale)
    case TimeTraceable => Bit(g.timeTraceable)
    case FrequencyTraceable => Bit(g.frequencyTraceable)
    case TimeSource => Hex(g.timeSource)
  }

  function Spaces(n: nat): string {
    seq(n, _ => ' ')
  }

  /** One line of the printed record: the value starts in column 26. */
  function Line(name: string, value: string): string {
    " " + (name + (Spaces(if |name| < 24 then 24 - |name| else 0) + (value + "\n")))
  }

  /** The printed values, in key order. */
  function Values(g: Settings): (vs: seq<string>)
    requires InRange(g)
    ensures |vs| == |KEYS|
  {
    seq(|KEYS|, i requires 0 <= i < |KEYS| => Value(g, KEYS[i]))
  }

  function RecordLines(name: Key -> string, keys: seq<Key>, values: seq<string>): string
    requires |values| == |keys|
  {
    if keys == [] then "" else Line(name(keys[0]), values[0]) + RecordLines(name, keys[1..], values[1..])
  }

  /** String */
  function Print(g: Settings): string
    requires InRange(g)
  {
    RecordLines(Name, KEYS, Values(g))
  }

  // ---------------------------------------------------------------- reading back

  /** What the converters make of ParseUint: 0 on a syntax error, the largest value on a range error. */
  function Saturated(n: Option<nat>, max: nat): nat {
    match n
    case None => 0
    case Some(v) => if v > max then max else v
  }

  /** strings.Replace(s, "0x", "", 1) */
  function Without0x(s: string): string {
    if |s| < 2 then s
    else if s[0] == '0' && s[1] == 'x' then s[2..]
    else [s[0]] + Without0x(s[1..])
  }

  function ToByte(s: string): int { Saturated(ParseUint(s, Ten), 0xFF) }

  function ToHex(s: string, max: nat): int { Saturated(ParseUint(Without0x(s), Sixteen), max) }

  function ToInt32(s: string): int {
    match ParseInt(s)
    case None => 0
    case Some(v) => if v > 0x7FFF_FFFF then 0x7FFF_FFFF else if v < -0x8000_0000 then -0x8000_0000 else v
  }

  function ToBit(s: string): bool { s == "1" }

  /** Update, for a known key. */
  function Update(g: Settings, k: Key, value: string): Settings {
    match k
    case ClockClass => g.(clockClass := ToByte(value))
    case ClockAccuracy => g.(clockAccuracy := ToHex(value, 0xFF))
    case LogVariance => g.(logVariance := ToHex(value, 0xFFFF))
    case UtcOffset => g.(utcOffset := ToInt32(value))
    case Leap61 => g.(leap61 := ToBit(value))
    case Leap59 => g.(leap59 := ToBit(value))
    case UtcOffsetValid => g.(utcOffsetValid := ToBit(value))
    case PtpTimescale => g.(ptpTimescale := ToBit(value))
    case TimeTraceable => g.(timeTraceable := ToBit(value))
    case FrequencyTraceable => g.(frequencyTraceable := ToBit(value))
    case TimeSource => g.(timeSource := ToHex(value, 0xFF))
  }

  function UpdateAll(g: Settings, keys: seq<Key>, values: seq<string>): Settings
    requires |values| == |keys|
    decreases keys
  {
    if keys == [] then g else UpdateAll(Update(g, keys[0], values[0]), keys[1..], values[1..])
  }

  /** The loop of RunPMCExpGetGMSettings over the captured groups; `keys` is KEYS there. */
  method Load(start: Settings, keys: seq<Key>, values: seq<string>) returns (g: Settings)
    requires |values| == |keys|
    ensures g == UpdateAll(start, keys, values)
  {
    g := start;
    for i := 0 to |values|
      invariant UpdateAll(start, keys, values) == UpdateAll(g, keys[i..], values[i..])
    {
      g := Update(g, keys[i], values[i]);
      assert keys[i..][1..] == keys[i + 1..] && values[i..][1..] == values[i + 1..];
    }
  }

  // ---------------------------------------------------------------- the answer's regular expression

  predicate AllDigits(s: string) {
    s != [] && forall i :: 0 <= i < |s| ==> '0' <= s[i] <= '9'
  }

  predicate HexLiteral(s: string) {
    && |s| > 2 && s[0] == '0' && s[1] == 'x'
    && forall i :: 2 <= i < |s| ==> PrintedDigit(s[i], Sixteen)
  }

  /** ValueRegEx */
  predicate Accepts(k: Key, value: string) {
    match k
    case ClockClass => AllDigits(value)
    case UtcOffset => AllDigits(value)
    case ClockAccuracy => HexLiteral(value)
    case LogVariance => HexLiteral(value)
    case TimeSource => HexLiteral(value)
    case _ => value == "0" || value == "1"
  }

  /** The values captured from blank-separated keys and values. */
  function Capture(name: Key -> string, tokens: seq<string>, keys: seq<Key>): Option<seq<string>> {
    if keys == [] then Some([])
    else if |tokens| >= 2 && tokens[0] == name(keys[0]) && Accepts(keys[0], tokens[1]) then
      match Capture(name, tokens[2..], keys[1..])
      case Some(rest) => Some([tokens[1]] + rest)
      case None => None
    else None
  }

  /** Matching a printed record and feeding the captured values to Update. */
  function ReadBack(start: Settings, text: string): Option<Settings> {
    match Capture(Name, Fields(text), KEYS)
    case Some(values) => if |values| == |KEYS| then Some(UpdateAll(start, KEYS, values)) else None
    case None => None
  }

  // ---------------------------------------------------------------- round trip

  lemma {:induction false} HexRoundTrip(n: nat, max: nat)
    requires n <= max
    ensures ToHex(Hex(n), max) == n && HexLiteral(Hex(n))
  {
    DigitsRoundTrip(n, Sixteen);
    assert Hex(n)[2..] == Digits(n, Sixteen);
  }

  lemma {:induction false} DecimalAccepted(i: int)
    ensures AllDigits(Decimal(i)) <==> i >= 0
  {
    if i >= 0 {
      assert forall j :: 0 <= j < |Decimal(i)| ==> PrintedDigit(Decimal(i)[j], Ten);
    } else {
      assert Decimal(i)[0] == '-';
    }
  }

  /** Update gives one field back and leaves the others alone. */
  lemma {:induction false} UpdateField(start: Settings, g: Settings, k: Key)
    requires InRange(g)
    ensures Accepts(k, Value(g, k)) <==> (k == UtcOffset ==> g.utcOffset >= 0)
    ensures Update(start, k, Value(g, k)) == CopyField(start, g, k)
  {
    match k {
      case ClockClass =>
        DecimalAccepted(g.clockClass);
        DigitsRoundTrip(g.clockClass, Ten);
      case UtcOffset =>
        DecimalAccepted(g.utcOffset);
        ParseDecimal(g.utcOffset);
      case ClockAccuracy => HexRoundTrip(g.clockAccuracy, 0xFF);
      case LogVariance => HexRoundTrip(g.logVariance, 0xFFFF);
      case TimeSource => HexRoundTrip(g.timeSource, 0xFF);
      case _ =>
    }
  }

  function CopyField(g: Settings, from: Settings, k: Key): Settings {
    match k
    case ClockClass => g.(clockClass := from.clockClass)
    case ClockAccuracy => g.(clockAccuracy := from.clockAccuracy)
    case LogVariance => g.(logVariance := from.logVariance)
    case UtcOffset => g.(utcOffset := from.utcOffset)
    case Leap61 => g.(leap61 := from.leap61)
    case Leap59 => g.(leap59 := from.leap59)
    case UtcOffsetValid => g.(utcOffsetValid := from.utcOffsetValid)
    case PtpTimescale => g.(ptpTimescale := from.ptpTimescale)
    case TimeTraceable => g.(timeTraceable := from.timeTraceable)
    case FrequencyTraceable => g.(frequencyTraceable := from.frequencyTraceable)
    case TimeSource => g.(timeSource := from.timeSource)
  }

  predicate SameField(g: Settings, from: Settings, k: Key) {
    match k
    case ClockClass => g.clockClass == from.clockClass
    case ClockAccuracy => g.clockAccuracy == from.clockAccuracy
    case LogVariance => g.logVariance == from.logVariance
    case UtcOffset => g.utcOffset == from.utcOffset
    case Leap61 => g.leap61 == from.leap61
    case Leap59 => g.leap59 == from.leap59
    case UtcOffsetValid => g.utcOffsetValid == from.utcOffsetValid
    case PtpTimescale => g.ptpTimescale == from.ptpTimescale
    case TimeTraceable => g.timeTraceable == from.timeTraceable
    case FrequencyTraceable => g.frequencyTraceable == from.frequencyTraceable
    case TimeSource => g.timeSource == from.timeSource
  }

  lemma {:induction false} CopySame(g: Settings, from: Settings, k: Key, other: Key)
    ensures SameField(CopyField(g, from, k), from, k)
    ensures SameField(g, from, other) ==> SameField(CopyField(g, from, k), from, other)
  {}

  lemma {:induction false} AllKeys(k: Key)
    ensures k in KEYS
  {
    var i := match k
      case ClockClass => 0 case ClockAccuracy => 1 case LogVariance => 2 case UtcOffset => 3 case Leap61 => 4
      case Leap59 => 5 case UtcOffsetValid => 6 case PtpTimescale => 7 case TimeTraceable => 8
      case FrequencyTraceable => 9 case TimeSource => 10;
    assert KEYS[i] == k;
  }

  lemma {:induction false} SameRecord(g: Settings, from: Settings)
    requires forall k :: SameField(g, from, k)
    ensures g == from
  {
    assert SameField(g, from, ClockClass) && SameField(g, from, ClockAccuracy) && SameField(g, from, LogVariance);
    assert SameField(g, from, UtcOffset) && SameField(g, from, Leap61) && SameField(g, from, Leap59);
    assert SameField(g, from, UtcOffsetValid) && SameField(g, from, PtpTimescale) && SameField(g, from, TimeTraceable);
    assert SameField(g, from, FrequencyTraceable) && SameField(g, from, TimeSource);
  }

  lemma {:induction false} UpdatesCopy(start: Settings, g: Settings, keys: seq<Key>, values: seq<string>, done: set<Key>)
    requires InRange(g) && |values| == |keys|
    requires forall i :: 0 <= i < |keys| ==> values[i] == Value(g, keys[i])
    requires forall k :: k in done ==> SameField(start, g, k)
    ensures forall k :: k in done || k in keys ==> SameField(UpdateAll(start, keys, values), g, k)
    decreases keys
  {
    if keys != [] {
      var start' := CopyField(start, g, keys[0]);
      UpdateField(start, g, keys[0]);
      forall k | k in done + {keys[0]} ensures SameField(start', g, k) { CopySame(start, g, keys[0], k); }
      UpdatesCopy(start', g, keys[1..], values[1..], done + {keys[0]});
    }
  }

  /** Feeding the printed values back in key order rebuilds every record, from any starting record. */
  lemma {:induction false} UpdatesRebuild(start: Settings, g: Settings)
    requires InRange(g)
    ensures UpdateAll(start, KEYS, Values(g)) == g
  {
    UpdatesCopy(start, g, KEYS, Values(g), {});
    forall k ensures SameField(UpdateAll(start, KEYS, Values(g)), g, k) { AllKeys(k); }
    SameRecord(UpdateAll(start, KEYS, Values(g)), g);
  }

  predicate FitsLine(name: string) {
    Token(name) && |name| < 24
  }

  lemma {:induction false} ShortNames(k: Key)
    requires k in {ClockClass, ClockAccuracy, Leap61, Leap59, PtpTimescale, TimeSource, TimeTraceable}
    ensures FitsLine(Name(k))
  {}

  lemma {:induction false} LongNames()
    ensures FitsLine("currentUtcOffset") && FitsLine("currentUtcOffsetValid") && FitsLine("frequencyTraceable")
  {}

  lemma {:induction false} LongestName()
    ensures FitsLine("offsetScaledLogVariance")
  {}

  lemma {:induction false} NameFits(k: Key)
    ensures FitsLine(Name(k))
  {
    match k {
      case LogVariance => LongestName();
      case UtcOffset => LongNames();
      case UtcOffsetValid => LongNames();
      case FrequencyTraceable => LongNames();
      case _ => ShortNames(k);
    }
  }

  lemma {:induction false} ValueIsToken(g: Settings, k: Key)
    requires InRange(g)
    ensures Token(Value(g, k))
  {
    match k {
      case UtcOffset =>
        if g.utcOffset < 0 {
          assert forall i :: 1 <= i < |Value(g, k)| ==> PrintedDigit(Value(g, k)[i], Ten);
        }
      case _ =>
    }
  }

  /** A name, blanks, a value and a newline split into the two tokens. */
  lemma {:induction false} PaddedFields(name: string, pad: string, value: string, rest: string)
    requires Token(name) && Token(value) && Text.Blank(pad) && pad != []
    ensures Fields(" " + (name + (pad + (value + "\n"))) + rest) == [name, value] + Fields(rest)
  {
    var tail := value + ("\n" + rest);
    assert " " + (name + (pad + (value + "\n"))) + rest == " " + (name + (pad + tail));
    assert Fields(tail) == [value] + Fields(rest) by { FieldsCons(value, "\n", rest); }
    assert Fields(name + (pad + tail)) == [name] + Fields(tail) by { FieldsCons(name, pad, tail); }
    FieldsSkip(" ", name + (pad + tail));
  }

  lemma {:induction false} LineFields(name: string, value: string, rest: string)
    requires FitsLine(name) && Token(value)
    ensures Fields(Line(name, value) + rest) == [name, value] + Fields(rest)
  {
    PaddedFields(name, Spaces(24 - |name|), value, rest);
  }

  ghost predicate AllAccepted(keys: seq<Key>, values: seq<string>)
    requires |values| == |keys|
  {
    forall i :: 0 <= i < |keys| ==> Accepts(keys[i], values[i])
  }

  lemma {:induction false} CaptureFirst(name: Key -> string, keys: seq<Key>, value: string, rest: seq<string>)
    requires keys != []
    ensures Capture(name, [name(keys[0]), value] + rest, keys) ==
            var more := Capture(name, rest, keys[1..]);
            if Accepts(keys[0], value) && more.Some? then Some([value] + more.value) else None
  {
    assert ([name(keys[0]), value] + rest)[2..] == rest;
  }

  /** The printed lines match exactly when every value has its key's shape, and then they yield the values. */
  lemma {:induction false} CaptureLines(name: Key -> string, keys: seq<Key>, values: seq<string>)
    requires |values| == |keys| && forall i :: 0 <= i < |keys| ==> FitsLine(name(keys[i])) && Token(values[i])
    ensures Capture(name, Fields(RecordLines(name, keys, values)), keys) ==
            if AllAccepted(keys, values) then Some(values) else None
  {
    if keys != [] {
      var rest := Fields(RecordLines(name, keys[1..], values[1..]));
      assert Fields(RecordLines(name, keys, values)) == [name(keys[0]), values[0]] + rest by {
        LineFields(name(keys[0]), values[0], RecordLines(name, keys[1..], values[1..]));
      }
      CaptureFirst(name, keys, values[0], rest);
      CaptureLines(name, keys[1..], values[1..]);
      assert AllAccepted(keys, values) <==> Accepts(keys[0], values[0]) && AllAccepted(keys[1..], values[1..]);
      assert [values[0]] + values[1..] == values;
    }
  }

  /** The answer's expression matches a printed record exactly when its UTC offset is not negative. */
  lemma {:induction false} CapturePrinted(g: Settings)
    requires InRange(g)
    ensures Capture(Name, Fields(Print(g)), KEYS) == if g.utcOffset >= 0 then Some(Values(g)) else None
  {
    var values := Values(g);
    forall i | 0 <= i < |KEYS|
      ensures FitsLine(Name(KEYS[i])) && Token(values[i]) &&
              (Accepts(KEYS[i], values[i]) <==> (KEYS[i] == UtcOffset ==> g.utcOffset >= 0))
    {
      NameFits(KEYS[i]);
      ValueIsToken(g, KEYS[i]);
      UpdateField(g, g, KEYS[i]);
    }
    assert KEYS[3] == UtcOffset;
    CaptureLines(Name, KEYS, values);
  }

  /** A printed record reads back as itself exactly when its UTC offset is not negative. */
  lemma {:induction false} PrintReadsBack(start: Settings, g: Settings)
    requires InRange(g)
    ensures ReadBack(start, Print(g)) == if g.utcOffset >= 0 then Some(g) else None
  {
    CapturePrinted(g);
    UpdatesRebuild(start, g);
  }
}
