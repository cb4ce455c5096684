/** Exactly which leap-seconds files survive being written and read back. */
module LeapRoundTrip {
  import opened PtpTypes
  import opened Text
  import opened LeapText

  // ---------------------------------------------------------------- what escaping keeps and changes

  lemma {:induction false} EscapePlain(s: string)
    requires Plain(s)
    ensures Escape(s) == s
  {
    if s != [] { EscapePlain(s[1..]); }
  }

  lemma {:induction false} EscapeLonger(s: string)
    ensures |Escape(s)| >= |s|
  {
    if s != [] { EscapeLonger(s[1..]); }
  }

  /** A string that escaping leaves alone has nothing to escape. */
  lemma {:induction false} EscapeFixed(s: string)
    requires Escape(s) == s
    ensures Plain(s)
  {
    if s != [] {
      var c, rest := EscapeChar(s[0]), Escape(s[1..]);
      EscapeLonger(s[1..]);
      assert |c| == 1 && c[0] == (c + rest)[0] == s[0];
      assert rest == (c + rest)[1..] == s[1..];
      EscapeFixed(s[1..]);
    }
  }

  lemma {:induction false} EscapeCharSpaces(c: char)
    ensures IsSpace(c) ==> EscapeChar(c) == [c]
    ensures !IsSpace(c) ==> Token(EscapeChar(c))
  {}

  /** Whether a string starts with a blank, or is empty, shows in its escaped form. */
  lemma {:induction false} EscapeStart(s: string)
    ensures s == [] <==> Escape(s) == []
    ensures s != [] ==> (IsSpace(Escape(s)[0]) <==> IsSpace(s[0])) && (IsSpace(s[0]) ==> Escape(s)[0] == s[0])
  {
    if s != [] { EscapeCharSpaces(s[0]); }
  }

  lemma {:induction false} EscapeToken(s: string)
    requires Token(s)
    ensures Token(Escape(s))
  {
    EscapeCharSpaces(s[0]);
    if |s| > 1 { EscapeToken(s[1..]); } else { assert Escape(s[1..]) == []; }
  }

  /** Single-spaced text, except that it may start with a blank. */
  predicate InnerSpaced(s: string) {
    && (forall i :: 0 <= i < |s| && IsSpace(s[i]) ==> s[i] == ' ')
    && (s != [] ==> s[|s| - 1] != ' ')
    && (forall i :: 0 < i < |s| ==> !(s[i - 1] == ' ' && s[i] == ' '))
  }

  lemma {:induction false} Prefixed(a: string, b: string)
    requires InnerSpaced(b)
    requires Token(a) || (a == " " && b != [] && b[0] != ' ')
    ensures InnerSpaced(a + b)
  {
    var s := a + b;
    assert forall i :: |a| <= i < |s| ==> s[i] == b[i - |a|];
    forall i | 0 < i < |s| ensures !(s[i - 1] == ' ' && s[i] == ' ') {
      if i > |a| { assert s[i - 1] == b[i - 1 - |a|] && s[i] == b[i - |a|]; }
    }
  }

  lemma {:induction false} EscapeInner(s: string)
    requires InnerSpaced(s)
    ensures InnerSpaced(Escape(s))
  {
    if s != [] {
      EscapeInner(s[1..]);
      EscapeStart(s[1..]);
      EscapeCharSpaces(s[0]);
      Prefixed(EscapeChar(s[0]), Escape(s[1..]));
    }
  }

  lemma {:induction false} EscapeSpaced(s: string)
    requires SingleSpaced(s)
    ensures SingleSpaced(Escape(s))
  {
    EscapeInner(s);
    EscapeStart(s);
  }

  // ---------------------------------------------------------------- the dates

  predicate IsDate(kind: Kind) {
    kind == Update || kind == Expiration
  }

  function Date(f: LeapFile, kind: Kind): string {
    if kind == Update then f.updateTime else f.expirationTime
  }

  lemma {:induction false} LineKeepsDate(f: LeapFile, line: string, kind: Kind)
    requires IsDate(kind) && (Token(Date(f, kind)) || KindOf(line) == kind) && ParseLine(f, line).Parsed?
    ensures Token(Date(ParseLine(f, line).file, kind))
  {
    FieldsAreTokens(line);
  }

  /** A file parsed from lines that hold a date line has that date. */
  lemma {:induction false} FoldSetsDate(f: LeapFile, lines: seq<string>, kind: Kind)
    requires IsDate(kind) && FoldLines(ParseLine, f, lines).Parsed?
    requires Token(Date(f, kind)) || exists i :: 0 <= i < |lines| && KindOf(lines[i]) == kind
    ensures Token(Date(FoldLines(ParseLine, f, lines).file, kind))
    decreases lines
  {
    if lines != [] {
      var f' := ParseLine(f, lines[0]).file;
      if Token(Date(f, kind)) || KindOf(lines[0]) == kind {
        LineKeepsDate(f, lines[0], kind);
      } else {
        var i :| 0 <= i < |lines| && KindOf(lines[i]) == kind;
        assert lines[1..][i - 1] == lines[i];
      }
      FoldSetsDate(f', lines[1..], kind);
    }
  }

  lemma {:induction false} SliceTail(lines: seq<string>, n: nat)
    requires 0 < n < |lines|
    ensures lines[1..][n - 1..] == lines[n..] && [lines[0]] + lines[1..][..n - 1] == lines[..n]
  {}

  /** Lines that are whole stay whole up to the first one that is not. */
  lemma {:induction false} LeadingLines(lines: seq<string>, n: nat)
    requires n < |lines| && forall i :: 0 <= i < n ==> OneLine(lines[i])
    ensures Lines(Unlines(lines)) == lines[..n] + Lines(Unlines(lines[n..]))
    decreases n
  {
    if n == 0 {
      assert lines[0..] == lines && lines[..0] == [];
    } else {
      var more := Lines(Unlines(lines[n..]));
      SliceTail(lines, n);
      assert Lines(Unlines(lines)) == [lines[0]] + Lines(Unlines(lines[1..])) by {
        LinesCons(lines[0], Unlines(lines[1..]));
      }
      assert Lines(Unlines(lines[1..])) == lines[1..][..n - 1] + more by { LeadingLines(lines[1..], n - 1); }
    }
  }

  /** Whatever follows it, a tag starts a line of its kind. */
  lemma {:induction false} TagStarts(lines: seq<string>, tag: char, value: string)
    requires lines != [] && lines[0] == Tagged(tag, value) && tag in {'$', '@'}
    ensures Lines(Unlines(lines)) != []
    ensures KindOf(Lines(Unlines(lines))[0]) == if tag == '$' then Update else Expiration
  {
    var s := Unlines(lines);
    assert s[0] == lines[0][0] == '#' && s[1] == lines[0][1] == tag;
    assert LineLength(s) >= 2;
  }

  function DateKind(tag: char): Kind {
    if tag == '$' then Update else Expiration
  }

  /** A date line is found again when the lines before it are whole. */
  lemma {:induction false} DateFound(f: LeapFile, lines: seq<string>, k: nat, tag: char, value: string)
    requires tag in {'$', '@'} && k < |lines| && lines[k] == Tagged(tag, value)
    requires forall i :: 0 <= i < k ==> OneLine(lines[i])
    requires ParseText(Unlines(lines)) == Parsed(f)
    ensures Token(Date(f, DateKind(tag)))
  {
    var all := Lines(Unlines(lines));
    assert k < |all| && KindOf(all[k]) == DateKind(tag) by {
      LeadingLines(lines, k);
      TagStarts(lines[k..], tag, value);
    }
    FoldSetsDate(EMPTY, all, DateKind(tag));
  }

  lemma {:induction false} FirstLines(g: LeapFile)
    ensures var lines := RenderedLines(g);
            && |lines| > 3 && OneLine(lines[0]) && OneLine(lines[1])
            && lines[2] == Tagged('$', g.updateTime) && lines[3] == Tagged('@', g.expirationTime)
  {
    HeadersOneLine();
  }

  /** The update line comes first. */
  lemma {:induction false} UpdateFound(f: LeapFile, lines: seq<string>, value: string)
    requires |lines| > 3 && OneLine(lines[0]) && OneLine(lines[1]) && lines[2] == Tagged('$', value)
    requires ParseText(Unlines(lines)) == Parsed(f)
    ensures Token(f.updateTime)
  {
    DateFound(f, lines, 2, '$', value);
  }

  /** The expiration line comes next, when the update line is whole. */
  lemma {:induction false} ExpirationFound(f: LeapFile, lines: seq<string>, date: string, value: string)
    requires |lines| > 3 && OneLine(lines[0]) && OneLine(lines[1]) && lines[2] == Tagged('$', date) && Token(date)
    requires lines[3] == Tagged('@', value) && ParseText(Unlines(lines)) == Parsed(f)
    ensures Token(f.expirationTime)
  {
    NoNewline(date);
    DateFound(f, lines, 3, '@', value);
  }

  /** A file that reads back has both dates. */
  lemma {:induction false} ReadBackDated(f: LeapFile)
    requires ParseText(Render(f)) == Parsed(f)
    ensures Dated(f)
  {
    var g := EscapedFile(f);
    FirstLines(g);
    UpdateFound(f, RenderedLines(g), g.updateTime);
    EscapeToken(f.updateTime);
    ExpirationFound(f, RenderedLines(g), g.updateTime, g.expirationTime);
  }

  // ---------------------------------------------------------------- the events

  /** A line that no parse gets past. */
  ghost predicate Unreadable(line: string) {
    forall f :: !ParseLine(f, line).Parsed?
  }

  lemma {:induction false} FoldFails(f: LeapFile, lines: seq<string>, i: nat)
    requires i < |lines| && Unreadable(lines[i])
    ensures !FoldLines(ParseLine, f, lines).Parsed?
    decreases lines
  {
    if i > 0 && ParseLine(f, lines[0]).Parsed? {
      FoldFails(ParseLine(f, lines[0]).file, lines[1..], i - 1);
    }
  }

  lemma {:induction false} NoSignedNumber(s: string)
    requires s != [] && s[0] == '&'
    ensures ParseInt64(s).None?
  {
    if DigitsValue(s, Ten).Some? { NumberCharacters(s, Ten); }
  }

  lemma {:induction false} DigitsPlain(s: string)
    requires DigitsValue(s, Ten).Some?
    ensures Plain(s)
  {
    NumberCharacters(s, Ten);
  }

  /** Of the characters of a number only a leading plus sign is escaped, and then it is no number any more. */
  lemma {:induction false} EscapedTime(s: string)
    requires ParseInt64(s).Some?
    ensures Plain(s) || (ParseInt64(Escape(s)).None? && Token(Escape(s)) && Escape(s)[0] != '#')
  {
    if s[0] == '+' {
      TimeIsToken(s);
      EscapeToken(s);
      assert Escape(s)[0] == '&';
      NoSignedNumber(Escape(s));
    } else if s[0] == '-' {
      DigitsPlain(s[1..]);
      assert forall i :: 1 <= i < |s| ==> s[i] == s[1..][i - 1];
    } else {
      DigitsPlain(s);
    }
  }

  /** An event whose time is escaped makes its line unreadable. */
  lemma {:induction false} EscapedEventFails(e: LeapEvent)
    requires SoundEvent(e) && !Plain(e.leapTime)
    ensures Unreadable(EventLine(EscapedEvent(e)))
  {
    var e' := EscapedEvent(e);
    EscapedTime(e.leapTime);
    DecimalIsToken(e.leapSec);
    ThreeParts(e'.leapTime, Decimal(e.leapSec), e'.comment);
    assert EventLine(e')[0] == e'.leapTime[0];
  }

  // ---------------------------------------------------------------- the whole file

  lemma {:induction false} EscapedLined(f: LeapFile)
    requires Sound(f) && Dated(f)
    ensures Lined(EscapedFile(f))
  {
    EscapeToken(f.updateTime);
    EscapeToken(f.expirationTime);
    EscapeSpaced(f.hash);
    forall i | 0 <= i < |f.leapEvents|
      ensures Token(EscapedFile(f).leapEvents[i].leapTime) && SingleSpaced(EscapedFile(f).leapEvents[i].comment)
    {
      TimeIsToken(f.leapEvents[i].leapTime);
      EscapeToken(f.leapEvents[i].leapTime);
      EscapeSpaced(f.leapEvents[i].comment);
    }
  }

  lemma {:induction false} MiddleAt<T>(head: seq<T>, mid: seq<T>, tail: seq<T>, i: nat)
    requires i < |mid|
    ensures |head| + i < |head + (mid + tail)| && (head + (mid + tail))[|head| + i] == mid[i]
  {}

  lemma {:induction false} EventLineAt(g: LeapFile, i: nat)
    requires i < |g.leapEvents| && Lined(g)
    ensures var lines := Lines(RenderRaw(g)); i + 4 < |lines| && lines[i + 4] == EventLine(g.leapEvents[i])
  {
    EventLinesAt(g.leapEvents);
    MiddleAt([HEADER_1, HEADER_2, UpdateLine(g), ExpirationLine(g)], EventLines(g.leapEvents), ["", HashLine(g)], i);
    assert Lines(RenderRaw(g)) == RenderedLines(g) by { RenderedSplits(g); }
  }

  lemma {:induction false} UnreadableFails(text: string, k: nat, line: string)
    requires k < |Lines(text)| && Lines(text)[k] == line && Unreadable(line)
    ensures !ParseText(text).Parsed?
  {
    FoldFails(EMPTY, Lines(text), k);
  }

  lemma {:induction false} EventFails(g: LeapFile, i: nat)
    requires Lined(g) && i < |g.leapEvents| && Unreadable(EventLine(g.leapEvents[i]))
    ensures !ParseText(RenderRaw(g)).Parsed?
  {
    EventLineAt(g, i);
    UnreadableFails(RenderRaw(g), i + 4, EventLine(g.leapEvents[i]));
  }

  /** A file with an escaped event time does not parse at all. */
  lemma {:induction false} EscapedTimeFails(f: LeapFile, i: nat)
    requires Sound(f) && Dated(f) && i < |f.leapEvents| && !Plain(f.leapEvents[i].leapTime)
    ensures !ParseText(Render(f)).Parsed?
  {
    var g := EscapedFile(f);
    assert Lined(g) by { EscapedLined(f); }
    assert Unreadable(EventLine(g.leapEvents[i])) by { EscapedEventFails(f.leapEvents[i]); }
    EventFails(g, i);
  }

  /** With plain event times the escaped file is what is read back. */
  lemma {:induction false} ReadsEscaped(f: LeapFile)
    requires Sound(f) && Dated(f) && forall i :: 0 <= i < |f.leapEvents| ==> Plain(f.leapEvents[i].leapTime)
    ensures ParseText(Render(f)) == Parsed(EscapedFile(f))
  {
    var g := EscapedFile(f);
    EscapedLined(f);
    forall i | 0 <= i < |g.leapEvents| ensures SoundEvent(g.leapEvents[i]) { EscapePlain(f.leapEvents[i].leapTime); }
    RawParses(g);
  }

  lemma {:induction false} SameWhenPlain(f: LeapFile)
    ensures EscapedFile(f) == f <==> Unescaped(f)
  {
    if Unescaped(f) {
      EscapePlain(f.updateTime);
      EscapePlain(f.expirationTime);
      EscapePlain(f.hash);
      forall i | 0 <= i < |f.leapEvents| ensures EscapedEvent(f.leapEvents[i]) == f.leapEvents[i] {
        EscapePlain(f.leapEvents[i].leapTime);
        EscapePlain(f.leapEvents[i].comment);
      }
    } else if EscapedFile(f) == f {
      EscapeFixed(f.updateTime);
      EscapeFixed(f.expirationTime);
      EscapeFixed(f.hash);
      forall i | 0 <= i < |f.leapEvents| ensures Plain(f.leapEvents[i].leapTime) && Plain(f.leapEvents[i].comment) {
        assert EscapedFile(f).leapEvents[i] == EscapedEvent(f.leapEvents[i]);
        EscapeFixed(f.leapEvents[i].leapTime);
        EscapeFixed(f.leapEvents[i].comment);
      }
    }
  }

  /**
   * A file is read back as it was written if and only if its numbers are valid, its comments and hash single-spaced,
   * both dates are there, and no character is escaped.
   */
  lemma {:induction false} RenderParsesIff(f: LeapFile)
    ensures ParseText(Render(f)) == Parsed(f) <==> Sound(f) && Dated(f) && Unescaped(f)
  {
    if ParseText(Render(f)) == Parsed(f) {
      FoldKeepsSound(EMPTY, Lines(Render(f)));
      ReadBackDated(f);
    }
    if Sound(f) && Dated(f) {
      if i :| 0 <= i < |f.leapEvents| && !Plain(f.leapEvents[i].leapTime) {
        EscapedTimeFails(f, i);
      } else {
        ReadsEscaped(f);
        SameWhenPlain(f);
      }
    }
  }

  /** Whatever text a file was parsed from, it is written and read back unchanged exactly when dated and unescaped. */
  lemma {:induction false} RestartKeepsFileIff(b: string, f: LeapFile)
    requires ParseText(b) == Parsed(f)
    ensures ParseText(Render(f)) == Parsed(f) <==> Dated(f) && Unescaped(f)
  {
    FoldKeepsSound(EMPTY, Lines(b));
    RenderParsesIff(f);
  }

  // ---------------------------------------------------------------- the format itself

  /** How the dates and the hash are written. */
  lemma {:induction false} TaggedLines(value: string)
    ensures Tagged('$', value) == "#$\t" + value && Tagged('@', value) == "#@\t" + value && Tagged('h', value) == "#h\t" + value
  {}

  lemma {:induction false} EndAt<T>(head: seq<T>, mid: seq<T>, x: T, y: T)
    ensures var all := head + (mid + [x, y]);
            |all| == |head| + |mid| + 2 && all[|head| + |mid|] == x && all[|head| + |mid| + 1] == y
  {}

  /** Which line holds what: two headers, the dates, the events in order, an empty line and the hash. */
  lemma {:induction false} LinesWritten(g: LeapFile, i: nat)
    requires i < |g.leapEvents|
    ensures var lines, n, e := RenderedLines(g), |g.leapEvents|, g.leapEvents[i];
            && |lines| == n + 6
            && lines[2] == Tagged('$', g.updateTime) && lines[3] == Tagged('@', g.expirationTime)
            && lines[4 + i] == e.leapTime + ("     " + (Decimal(e.leapSec) + ("    " + e.comment)))
            && lines[n + 4] == "" && lines[n + 5] == Tagged('h', g.hash)
  {
    var head, mid := [HEADER_1, HEADER_2, UpdateLine(g), ExpirationLine(g)], EventLines(g.leapEvents);
    EventLinesAt(g.leapEvents);
    MiddleAt(head, mid, ["", HashLine(g)], i);
    EndAt(head, mid, "", HashLine(g));
    assert RenderedLines(g)[2] == head[2] && RenderedLines(g)[3] == head[3];
  }

  /** Which characters are escaped, and how. */
  lemma {:induction false} EscapedCharacters(c: char)
    ensures EscapeChar(c) != [c] <==> c == '\0' || c == '"' || c == '&' || c == '\'' || c == '+' || c == '<' || c == '>'
    ensures EscapeChar('"') == "&#34;" && EscapeChar('&') == "&amp;" && EscapeChar('\'') == "&#39;"
    ensures EscapeChar('+') == "&#43;" && EscapeChar('<') == "&lt;" && EscapeChar('>') == "&gt;"
  {}

  /** What a line is for, by how it starts. */
  lemma {:induction false} LineKinds(rest: string, line: string)
    ensures KindOf("#$" + rest) == Update && KindOf("#@" + rest) == Expiration && KindOf("#h" + rest) == Hash
    ensures (line == [] || line[0] != '#') <==> KindOf(line) == Data
  {}

  /** What a line of data does: too few fields are skipped, then the seconds are checked, then the time. */
  lemma {:induction false} DataLine(f: LeapFile, line: string)
    requires line == [] || line[0] != '#'
    ensures var fields, r := Fields(line), ParseLine(f, line);
            if |fields| < 2 then r == Parsed(f)
            else
              var sec, time := ParseInt(fields[1]), ParseInt(fields[0]);
              if sec.None? || sec.value < -128 || sec.value > 127 then r == BadSeconds
              else if time.None? || time.value < -9223372036854775808 || time.value > 9223372036854775807 then r == BadTime
              else r == Parsed(f.(leapEvents := f.leapEvents + [LeapEvent(fields[0], sec.value, Join(fields[2..]))]))
  {}
}
