/** The leap-seconds file: template and parser (pkg/leap/leap-file.go). */
module LeapText {
  import opened PtpTypes
  import opened Text

  datatype LeapEvent = LeapEvent(leapTime: string, leapSec: int, comment: string)

  datatype LeapFile = LeapFile(expirationTime: string, updateTime: string, leapEvents: seq<LeapEvent>, hash: string)

  const EMPTY := LeapFile("", "", [], "")

  // ---------------------------------------------------------------- rendering

  /** How html/template escapes a character of text. */
  function EscapeChar(c: char): string {
    match c
    case '\0' => "\U{FFFD}"
    case '"' => "&#34;"
    case '&' => "&amp;"
    case '\'' => "&#39;"
    case '+' => "&#43;"
    case '<' => "&lt;"
    case '>' => "&gt;"
    case _ => [c]
  }

  function Escape(s: string): string {
    if s == [] then [] else EscapeChar(s[0]) + Escape(s[1..])
  }

  predicate Plain(s: string) {
    forall i :: 0 <= i < |s| ==> EscapeChar(s[i]) == [s[i]]
  }

  function EscapedEvent(e: LeapEvent): LeapEvent {
    LeapEvent(Escape(e.leapTime), e.leapSec, Escape(e.comment))
  }

  /** The file with every string escaped. */
  function EscapedFile(f: LeapFile): LeapFile {
    LeapFile(Escape(f.expirationTime), Escape(f.updateTime),
             seq(|f.leapEvents|, i requires 0 <= i < |f.leapEvents| => EscapedEvent(f.leapEvents[i])), Escape(f.hash))
  }

  // The second header is put together from short literals, which the solver handles better than a long one.
  const HEADER_1 := "# Do not edit"
  const HEADER_2 := "# This file" + (" is generated" + (" automatically" + (" by linuxptp" + "-daemon")))

  function EventLine(e: LeapEvent): string {
    e.leapTime + ("     " + (Decimal(e.leapSec) + ("    " + e.comment)))
  }

  function EventLines(es: seq<LeapEvent>): seq<string> {
    if es == [] then [] else [EventLine(es[0])] + EventLines(es[1..])
  }

  function Tagged(tag: char, value: string): string { ['#', tag] + ("\t" + value) }

  function UpdateLine(f: LeapFile): string { Tagged('$', f.updateTime) }
  function ExpirationLine(f: LeapFile): string { Tagged('@', f.expirationTime) }
  function HashLine(f: LeapFile): string { Tagged('h', f.hash) }

  /** strings.Join with newlines */
  function Unlines(lines: seq<string>): string {
    if lines == [] then []
    else if |lines| == 1 then lines[0]
    else lines[0] + ("\n" + Unlines(lines[1..]))
  }

  function RenderedLines(f: LeapFile): seq<string> {
    [HEADER_1, HEADER_2, UpdateLine(f), ExpirationLine(f)] + (EventLines(f.leapEvents) + ["", HashLine(f)])
  }

  /** The text around strings that are escaped already. */
  function RenderRaw(f: LeapFile): string {
    Unlines(RenderedLines(f))
  }

  /** renderLeapData */
  function Render(f: LeapFile): string {
    RenderRaw(EscapedFile(f))
  }

  // ---------------------------------------------------------------- parsing

  /** Panic is an index out of range, the other failures are the errors parseLeapFile returns. */
  datatype Parse<+F> = Parsed(file: F) | BadSeconds | BadTime | Panic

  /** The prefix a line starts with: "#$", "#@", "#h", any other "#", or none. */
  datatype Kind = Update | Expiration | Hash | Remark | Data

  function KindOf(line: string): Kind {
    if line == [] || line[0] != '#' then Data
    else if |line| < 2 then Remark
    else if line[1] == '$' then Update
    else if line[1] == '@' then Expiration
    else if line[1] == 'h' then Hash
    else Remark
  }

  function ParseSized(s: string, limit: int): Option<int> {
    match ParseInt(s)
    case Some(n) => if -limit <= n < limit then Some(n) else None
    case None => None
  }

  function ParseInt8(s: string): Option<int> { ParseSized(s, 0x80) }
  function ParseInt64(s: string): Option<int> { ParseSized(s, 0x8000_0000_0000_0000) }

  function ParseEvent(f: LeapFile, fields: seq<string>): Parse<LeapFile> {
    if |fields| < 2 then Parsed(f)
    else if ParseInt8(fields[1]).None? then BadSeconds
    else if ParseInt64(fields[0]).None? then BadTime
    else Parsed(f.(leapEvents := f.leapEvents + [LeapEvent(fields[0], ParseInt8(fields[1]).value, Join(fields[2..]))]))
  }

  function ParseFields(f: LeapFile, kind: Kind, fields: seq<string>): Parse<LeapFile> {
    match kind
    case Update => if |fields| < 2 then Panic else Parsed(f.(updateTime := fields[1]))
    case Expiration => if |fields| < 2 then Panic else Parsed(f.(expirationTime := fields[1]))
    case Hash => if |fields| < 1 then Panic else Parsed(f.(hash := Join(fields[1..])))
    case Remark => Parsed(f)
    case Data => ParseEvent(f, fields)
  }

  function ParseLine(f: LeapFile, line: string): Parse<LeapFile> {
    ParseFields(f, KindOf(line), Fields(line))
  }

  function FoldLines<F, L>(p: (F, L) -> Parse<F>, f: F, lines: seq<L>): Parse<F>
    decreases lines
  {
    if lines == [] then Parsed(f)
    else
      match p(f, lines[0])
      case Parsed(f') => FoldLines(p, f', lines[1..])
      case BadSeconds => BadSeconds
      case BadTime => BadTime
      case Panic => Panic
  }

  function ParseText(b: string): Parse<LeapFile> {
    FoldLines(ParseLine, EMPTY, Lines(b))
  }

  /** parseLeapFile */
  method ParseLeapFile(b: string) returns (r: Parse<LeapFile>)
    ensures r == ParseText(b)
  {
    var lines := Lines(b);
    var f := EMPTY;
    for i := 0 to |lines|
      invariant ParseText(b) == FoldLines(ParseLine, f, lines[i..])
    {
      var line := lines[i];
      var fields := Fields(line);
      assert lines[i..][0] == line && lines[i..][1..] == lines[i + 1..];
      match KindOf(line) {
        case Update =>
          if |fields| < 2 { return Panic; }
          f := f.(updateTime := fields[1]);
        case Expiration =>
          if |fields| < 2 { return Panic; }
          f := f.(expirationTime := fields[1]);
        case Hash =>
          if |fields| < 1 { return Panic; }
          f := f.(hash := Join(fields[1..]));
        case Data =>
          if |fields| >= 2 {
            var sec := ParseInt8(fields[1]);
            if sec.None? { return BadSeconds; }
            if ParseInt64(fields[0]).None? { return BadTime; }
            f := f.(leapEvents := f.leapEvents + [LeapEvent(fields[0], sec.value, Join(fields[2..]))]);
          }
        case Remark =>
      }
    }
    return Parsed(f);
  }

  // ---------------------------------------------------------------- files that survive

  predicate SoundEvent(e: LeapEvent) {
    ParseInt64(e.leapTime).Some? && -0x80 <= e.leapSec < 0x80 && SingleSpaced(e.comment)
  }

  /** The shape every parsed file has. */
  predicate Sound(f: LeapFile) {
    && (forall i :: 0 <= i < |f.leapEvents| ==> SoundEvent(f.leapEvents[i]))
    && SingleSpaced(f.hash)
  }

  /** Nothing in the file is changed by HTML escaping. */
  predicate Unescaped(f: LeapFile) {
    && Plain(f.updateTime) && Plain(f.expirationTime) && Plain(f.hash)
    && forall i :: 0 <= i < |f.leapEvents| ==> Plain(f.leapEvents[i].leapTime) && Plain(f.leapEvents[i].comment)
  }

  predicate Dated(f: LeapFile) {
    Token(f.updateTime) && Token(f.expirationTime)
  }

  /** A file whose strings fill no more than their own lines. */
  predicate Lined(f: LeapFile) {
    && Dated(f) && SingleSpaced(f.hash)
    && forall i :: 0 <= i < |f.leapEvents| ==> Token(f.leapEvents[i].leapTime) && SingleSpaced(f.leapEvents[i].comment)
  }

  lemma {:induction false} LinesUnlines(lines: seq<string>)
    requires lines != [] && forall i :: 0 <= i < |lines| ==> OneLine(lines[i])
    ensures Lines(Unlines(lines)) == lines
  {
    if |lines| == 1 {
      LinesLast(lines[0]);
    } else {
      LinesUnlines(lines[1..]);
      LinesCons(lines[0], Unlines(lines[1..]));
    }
  }

  lemma {:induction false} EventLinesAt(es: seq<LeapEvent>)
    ensures |EventLines(es)| == |es|
    ensures forall i :: 0 <= i < |es| ==> EventLines(es)[i] == EventLine(es[i])
  {
    if es != [] { EventLinesAt(es[1..]); }
  }

  lemma {:induction false} NoNewline(s: string)
    requires Token(s) || SingleSpaced(s)
    ensures OneLine(s)
  {}

  lemma {:induction false} TimeIsToken(s: string)
    requires ParseInt64(s).Some?
    ensures Token(s) && s[0] != '#'
  {
    if s[0] == '-' || s[0] == '+' {
      NumberCharacters(s[1..], Ten);
      assert forall i :: 1 <= i < |s| ==> s[i] == s[1..][i - 1];
    } else {
      NumberCharacters(s, Ten);
    }
  }

  lemma {:induction false} DecimalIsToken(i: int)
    ensures Token(Decimal(i))
  {
    var s := Decimal(i);
    if i >= 0 {
      assert forall j :: 0 <= j < |s| ==> PrintedDigit(s[j], Ten);
    } else {
      assert forall j :: 1 <= j < |s| ==> PrintedDigit(s[j], Ten);
    }
  }

  lemma {:induction false} ThreeParts(time: string, sec: string, comment: string)
    requires Token(time) && Token(sec)
    ensures Fields(time + ("     " + (sec + ("    " + comment)))) == [time, sec] + Fields(comment)
  {
    FieldsCons(time, "     ", sec + ("    " + comment));
    FieldsCons(sec, "    ", comment);
  }

  /** An event's line holds its time, its seconds and its comment, and nothing else. */
  lemma {:induction false} EventLineFields(e: LeapEvent)
    requires SoundEvent(e)
    ensures Fields(EventLine(e)) == [e.leapTime, Decimal(e.leapSec)] + Fields(e.comment)
    ensures EventLine(e)[0] != '#'
  {
    TimeIsToken(e.leapTime);
    DecimalIsToken(e.leapSec);
    ThreeParts(e.leapTime, Decimal(e.leapSec), e.comment);
  }

  lemma {:induction false} EventOneLine(e: LeapEvent)
    requires Token(e.leapTime) && SingleSpaced(e.comment)
    ensures OneLine(EventLine(e))
  {
    DecimalIsToken(e.leapSec);
    NoNewline(e.leapTime);
    NoNewline(e.comment);
    NoNewline(Decimal(e.leapSec));
  }

  lemma {:induction false} ParseEventFields(f: LeapFile, e: LeapEvent)
    requires SoundEvent(e)
    ensures ParseEvent(f, [e.leapTime, Decimal(e.leapSec)] + Fields(e.comment)) ==
            Parsed(f.(leapEvents := f.leapEvents + [e]))
  {
    var fields := [e.leapTime, Decimal(e.leapSec)] + Fields(e.comment);
    ParseDecimal(e.leapSec);
    JoinFields(e.comment);
    assert fields[2..] == Fields(e.comment);
  }

  lemma {:induction false} ParseEventLine(f: LeapFile, e: LeapEvent)
    requires SoundEvent(e)
    ensures ParseLine(f, EventLine(e)) == Parsed(f.(leapEvents := f.leapEvents + [e]))
  {
    EventLineFields(e);
    ParseEventFields(f, e);
  }

  /** A fold that succeeds at every line ends in the last of the states it went through. */
  lemma {:induction false} FoldPath<F, L>(p: (F, L) -> Parse<F>, fs: seq<F>, lines: seq<L>)
    requires |fs| == |lines| + 1
    requires forall i :: 0 <= i < |lines| ==> p(fs[i], lines[i]) == Parsed(fs[i + 1])
    ensures FoldLines(p, fs[0], lines) == Parsed(fs[|lines|])
    decreases lines
  {
    if lines != [] {
      FoldPath(p, fs[1..], lines[1..]);
    }
  }

  lemma {:induction false} TaggedFields(tag: char, value: string)
    requires !IsSpace(tag)
    ensures Fields(Tagged(tag, value)) == [['#', tag]] + Fields(value)
  {
    FieldsCons(['#', tag], "\t", value);
  }

  lemma {:induction false} TokenField(t: string)
    requires Token(t)
    ensures Fields(t) == [t]
  {
    FieldsCons(t, "", "");
    assert t + ("" + "") == t;
  }

  lemma {:induction false} ParseDates(f: LeapFile, g: LeapFile)
    requires Dated(g)
    ensures ParseLine(f, UpdateLine(g)) == Parsed(f.(updateTime := g.updateTime))
    ensures ParseLine(f, ExpirationLine(g)) == Parsed(f.(expirationTime := g.expirationTime))
  {
    TokenField(g.updateTime);
    TokenField(g.expirationTime);
    TaggedFields('$', g.updateTime);
    TaggedFields('@', g.expirationTime);
  }

  lemma {:induction false} ParseHash(f: LeapFile, g: LeapFile)
    requires Sound(g)
    ensures ParseLine(f, HashLine(g)) == Parsed(f.(hash := g.hash))
  {
    TaggedFields('h', g.hash);
    JoinFields(g.hash);
    assert Fields(HashLine(g))[1..] == Fields(g.hash);
  }

  lemma {:induction false} HeaderKinds()
    ensures KindOf(HEADER_1) == Remark && KindOf(HEADER_2) == Remark
  {
    assert HEADER_2[0] == "# This file"[0] && HEADER_2[1] == "# This file"[1];
  }

  lemma {:induction false} ParseRemark(f: LeapFile, line: string)
    requires KindOf(line) == Remark || line == []
    ensures ParseLine(f, line) == Parsed(f)
  {}

  lemma {:induction false} HeadersOneLine()
    ensures OneLine(HEADER_1) && OneLine(HEADER_2)
  {}

  lemma {:induction false} TaggedOneLine(f: LeapFile)
    requires Lined(f)
    ensures OneLine(UpdateLine(f)) && OneLine(ExpirationLine(f)) && OneLine(HashLine(f))
  {
    NoNewline(f.updateTime);
    NoNewline(f.expirationTime);
    NoNewline(f.hash);
  }

  /** What has been read of `f` after k rendered lines: two headers, two dates, the events, a blank and the hash. */
  ghost function ReadSoFar(f: LeapFile, k: nat): LeapFile
    requires k <= |f.leapEvents| + 6
  {
    var n := |f.leapEvents|;
    LeapFile(if k < 4 then "" else f.expirationTime, if k < 3 then "" else f.updateTime,
             if k < 4 then [] else if k <= n + 4 then f.leapEvents[..k - 4] else f.leapEvents,
             if k < n + 6 then "" else f.hash)
  }

  /** What the k-th rendered line is; of the two headers only that they are remarks. */
  ghost predicate LineAt(f: LeapFile, k: nat, line: string)
    requires k < |f.leapEvents| + 6
  {
    if k < 2 then KindOf(line) == Remark && OneLine(line)
    else if k == 2 then line == UpdateLine(f)
    else if k == 3 then line == ExpirationLine(f)
    else if k < |f.leapEvents| + 4 then line == EventLine(f.leapEvents[k - 4])
    else if k == |f.leapEvents| + 4 then line == []
    else line == HashLine(f)
  }

  lemma {:induction false} RenderedAt(f: LeapFile, k: nat)
    requires k < |f.leapEvents| + 6
    ensures |RenderedLines(f)| == |f.leapEvents| + 6
    ensures LineAt(f, k, RenderedLines(f)[k])
  {
    EventLinesAt(f.leapEvents);
    HeaderKinds();
    HeadersOneLine();
  }

  lemma {:induction false} LineAtOneLine(f: LeapFile, k: nat, line: string)
    requires Lined(f) && k < |f.leapEvents| + 6 && LineAt(f, k, line)
    ensures OneLine(line)
  {
    TaggedOneLine(f);
    if 4 <= k < |f.leapEvents| + 4 { EventOneLine(f.leapEvents[k - 4]); }
  }

  lemma {:induction false} ReadsEvent(f: LeapFile, i: nat)
    requires Sound(f) && i < |f.leapEvents|
    ensures ParseLine(ReadSoFar(f, i + 4), EventLine(f.leapEvents[i])) == Parsed(ReadSoFar(f, i + 5))
  {
    var before, e := ReadSoFar(f, i + 4), f.leapEvents[i];
    assert before.(leapEvents := before.leapEvents + [e]) == ReadSoFar(f, i + 5) by {
      assert f.leapEvents[..i] + [e] == f.leapEvents[..i + 1];
    }
    assert ParseLine(before, EventLine(e)) == Parsed(before.(leapEvents := before.leapEvents + [e])) by {
      ParseEventLine(before, e);
    }
  }

  lemma {:induction false} ReadsDate(f: LeapFile, k: nat, line: string)
    requires Dated(f) && 2 <= k < 4 && LineAt(f, k, line)
    ensures ParseLine(ReadSoFar(f, k), line) == Parsed(ReadSoFar(f, k + 1))
  {
    ParseDates(ReadSoFar(f, k), f);
  }

  lemma {:induction false} ReadsRemark(f: LeapFile, k: nat, line: string)
    requires (k < 2 || k == |f.leapEvents| + 4) && LineAt(f, k, line)
    ensures ParseLine(ReadSoFar(f, k), line) == Parsed(ReadSoFar(f, k + 1))
  {
    ParseRemark(ReadSoFar(f, k), line);
    assert f.leapEvents[..|f.leapEvents|] == f.leapEvents;
  }

  lemma {:induction false} ReadsHash(f: LeapFile)
    requires Sound(f)
    ensures ParseLine(ReadSoFar(f, |f.leapEvents| + 5), HashLine(f)) == Parsed(f)
  {
    ParseHash(ReadSoFar(f, |f.leapEvents| + 5), f);
  }

  lemma {:induction false} ReadsNext(f: LeapFile, k: nat, line: string)
    requires Sound(f) && Dated(f) && k < |f.leapEvents| + 6 && LineAt(f, k, line)
    ensures ParseLine(ReadSoFar(f, k), line) == Parsed(ReadSoFar(f, k + 1))
  {
    if k < 2 || k == |f.leapEvents| + 4 {
      ReadsRemark(f, k, line);
    } else if k < 4 {
      ReadsDate(f, k, line);
    } else if k < |f.leapEvents| + 4 {
      ReadsEvent(f, k - 4);
    } else {
      ReadsHash(f);
    }
  }

  lemma {:induction false} FoldRendered(f: LeapFile, lines: seq<string>)
    requires Sound(f) && Dated(f)
    requires |lines| == |f.leapEvents| + 6 && forall k :: 0 <= k < |lines| ==> LineAt(f, k, lines[k])
    ensures FoldLines(ParseLine, EMPTY, lines) == Parsed(f)
  {
    var n := |lines|;
    var fs := seq(n + 1, k requires 0 <= k < n + 1 => ReadSoFar(f, k));
    forall k | 0 <= k < n ensures ParseLine(fs[k], lines[k]) == Parsed(fs[k + 1]) {
      ReadsNext(f, k, lines[k]);
    }
    FoldPath(ParseLine, fs, lines);
  }

  lemma {:induction false} SoundLined(f: LeapFile)
    requires Sound(f) && Dated(f)
    ensures Lined(f)
  {
    forall i | 0 <= i < |f.leapEvents| ensures Token(f.leapEvents[i].leapTime) { TimeIsToken(f.leapEvents[i].leapTime); }
  }

  lemma {:induction false} RenderedSplits(f: LeapFile)
    requires Lined(f)
    ensures Lines(RenderRaw(f)) == RenderedLines(f) && |RenderedLines(f)| == |f.leapEvents| + 6
  {
    var lines := RenderedLines(f);
    RenderedAt(f, 0);
    forall k | 0 <= k < |lines| ensures OneLine(lines[k]) {
      RenderedAt(f, k);
      LineAtOneLine(f, k, lines[k]);
    }
    LinesUnlines(lines);
  }

  /** Parsing the raw text of a file returns the same file. */
  lemma {:induction false} RawParses(f: LeapFile)
    requires Sound(f) && Dated(f)
    ensures ParseText(RenderRaw(f)) == Parsed(f)
  {
    var lines := RenderedLines(f);
    SoundLined(f);
    RenderedSplits(f);
    forall k | 0 <= k < |lines| ensures LineAt(f, k, lines[k]) { RenderedAt(f, k); }
    FoldRendered(f, lines);
  }

  // ---------------------------------------------------------------- every parsed file is sound

  lemma {:induction false} FieldsAreTokens(s: string)
    ensures forall i :: 0 <= i < |Fields(s)| ==> Token(Fields(s)[i])
    decreases |s|
  {
    if s != [] {
      if IsSpace(s[0]) {
        FieldsAreTokens(s[1..]);
      } else {
        FieldsAreTokens(s[TokenLength(s)..]);
      }
    }
  }

  lemma {:induction false} SpacedPair(t: string, r: string)
    requires Token(t) && SingleSpaced(r) && r != []
    ensures SingleSpaced(t + " " + r)
  {
    var s := t + " " + r;
    assert forall i :: 0 <= i < |t| ==> s[i] == t[i];
    assert forall i :: 0 <= i < |r| ==> s[|t| + 1 + i] == r[i];
    assert s[|t|] == ' ';
    forall i | 0 < i < |s| ensures !(s[i - 1] == ' ' && s[i] == ' ') {
      if i > |t| + 1 { assert s[i - 1] == r[i - 2 - |t|] && s[i] == r[i - 1 - |t|]; }
    }
    forall i | 0 <= i < |s| && IsSpace(s[i]) ensures s[i] == ' ' {
      if i > |t| { assert s[i] == r[i - 1 - |t|]; }
    }
  }

  lemma {:induction false} JoinSingleSpaced(ts: seq<string>)
    requires forall i :: 0 <= i < |ts| ==> Token(ts[i])
    ensures SingleSpaced(Join(ts)) && (ts != [] ==> Join(ts) != [])
  {
    if |ts| > 1 {
      JoinSingleSpaced(ts[1..]);
      SpacedPair(ts[0], Join(ts[1..]));
    }
  }

  lemma {:induction false} LineKeepsSound(f: LeapFile, line: string)
    requires Sound(f)
    ensures ParseLine(f, line).Parsed? ==> Sound(ParseLine(f, line).file)
  {
    var fields := Fields(line);
    FieldsAreTokens(line);
    if |fields| >= 1 { JoinSingleSpaced(fields[1..]); }
    if |fields| >= 2 { JoinSingleSpaced(fields[2..]); }
  }

  lemma {:induction false} FoldKeepsSound(f: LeapFile, lines: seq<string>)
    requires Sound(f)
    ensures FoldLines(ParseLine, f, lines).Parsed? ==> Sound(FoldLines(ParseLine, f, lines).file)
    decreases lines
  {
    if lines != [] {
      LineKeepsSound(f, lines[0]);
      var r := ParseLine(f, lines[0]);
      if r.Parsed? { FoldKeepsSound(r.file, lines[1..]); }
    }
  }
}
