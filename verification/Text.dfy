/** The parts of Go's strings and strconv packages that the settings and leap files rely on. */
module Text {
  import opened PtpTypes

  // ---------------------------------------------------------------- tokens and lines

  /** unicode.IsSpace */
  predicate IsSpace(c: char) {
    var n := c as int;
    9 <= n <= 13 || n in {0x20, 0x85, 0xA0, 0x1680, 0x2028, 0x2029, 0x202F, 0x205F, 0x3000} || 0x2000 <= n <= 0x200A
  }

  predicate Blank(s: string) {
    forall i :: 0 <= i < |s| ==> IsSpace(s[i])
  }

  predicate Token(s: string) {
    s != [] && forall i :: 0 <= i < |s| ==> !IsSpace(s[i])
  }

  function TokenLength(s: string): (n: nat)
    ensures n <= |s|
    ensures forall i :: 0 <= i < n ==> !IsSpace(s[i])
    ensures n < |s| ==> IsSpace(s[n])
  {
    if s == [] || IsSpace(s[0]) then 0 else 1 + TokenLength(s[1..])
  }

  /** strings.Fields */
  function Fields(s: string): seq<string> {
    if s == [] then []
    else if IsSpace(s[0]) then Fields(s[1..])
    else [s[..TokenLength(s)]] + Fields(s[TokenLength(s)..])
  }

  /** strings.Join with a single space */
  function Join(tokens: seq<string>): string {
    if tokens == [] then []
    else if |tokens| == 1 then tokens[0]
    else tokens[0] + " " + Join(tokens[1..])
  }

  lemma {:induction false} FieldsSkip(sp: string, s: string)
    requires Blank(sp)
    ensures Fields(sp + s) == Fields(s)
  {
    if sp == [] {
      assert sp + s == s;
    } else {
      assert (sp + s)[1..] == sp[1..] + s;
      FieldsSkip(sp[1..], s);
    }
  }

  lemma {:induction false} TokenLengthIs(s: string, n: nat)
    requires n <= |s| && (forall i :: 0 <= i < n ==> !IsSpace(s[i])) && (n < |s| ==> IsSpace(s[n]))
    ensures TokenLength(s) == n
  {}

  lemma {:induction false} FieldsToken(t: string, s: string)
    requires Token(t) && (s == [] || IsSpace(s[0]))
    ensures Fields(t + s) == [t] + Fields(s)
  {
    TokenLengthIs(t + s, |t|);
    assert (t + s)[..|t|] == t && (t + s)[|t|..] == s;
  }

  /** A token followed by blanks and more text. */
  lemma {:induction false} FieldsCons(t: string, sp: string, s: string)
    requires Token(t) && Blank(sp) && (sp != [] || s == [])
    ensures Fields(t + (sp + s)) == [t] + Fields(s)
  {
    FieldsToken(t, sp + s);
    FieldsSkip(sp, s);
  }

  predicate OneLine(s: string) {
    '\n' !in s
  }

  function LineLength(s: string): (n: nat)
    ensures n <= |s|
    ensures forall i :: 0 <= i < n ==> s[i] != '\n'
    ensures n < |s| ==> s[n] == '\n'
  {
    if s == [] || s[0] == '\n' then 0 else 1 + LineLength(s[1..])
  }

  /** strings.Split by newline */
  function Lines(s: string): seq<string>
    decreases |s|
  {
    var n := LineLength(s);
    if n == |s| then [s] else [s[..n]] + Lines(s[n + 1..])
  }

  lemma {:induction false} LineLengthIs(s: string, n: nat)
    requires n <= |s| && (forall i :: 0 <= i < n ==> s[i] != '\n') && (n < |s| ==> s[n] == '\n')
    ensures LineLength(s) == n
  {}

  lemma {:induction false} LinesCons(a: string, b: string)
    requires OneLine(a)
    ensures Lines(a + ("\n" + b)) == [a] + Lines(b)
  {
    var s := a + ("\n" + b);
    LineLengthIs(s, |a|);
    assert s[..|a|] == a && s[|a| + 1..] == b;
  }

  lemma {:induction false} LinesLast(a: string)
    requires OneLine(a)
    ensures Lines(a) == [a]
  {
    LineLengthIs(a, |a|);
  }

  // ---------------------------------------------------------------- words separated by single spaces

  /** No blank but ' ', none at either end and no two in a row. */
  predicate SingleSpaced(s: string) {
    && (forall i :: 0 <= i < |s| && IsSpace(s[i]) ==> s[i] == ' ')
    && (s != [] ==> s[0] != ' ' && s[|s| - 1] != ' ')
    && (forall i :: 0 < i < |s| ==> !(s[i - 1] == ' ' && s[i] == ' '))
  }

  lemma {:induction false} SingleSpacedTail(s: string, n: nat)
    requires SingleSpaced(s) && n < |s| && IsSpace(s[n])
    ensures s[n] == ' ' && n + 1 < |s| && !IsSpace(s[n + 1])
    ensures SingleSpaced(s[n + 1..])
  {
    var rest := s[n + 1..];
    assert s[n] == ' ' && s[n + 1] != ' ';
    assert rest[0] == s[n + 1] && rest[|rest| - 1] == s[|s| - 1];
  }

  lemma {:induction false} JoinCons(t: string, tokens: seq<string>)
    requires tokens != []
    ensures Join([t] + tokens) == t + (" " + Join(tokens))
  {
    assert ([t] + tokens)[1..] == tokens;
  }

  lemma {:induction false} FieldsNotEmpty(s: string)
    requires s != [] && !IsSpace(s[0])
    ensures Fields(s) != []
  {}

  /** strings.Join(strings.Fields(s), " ") gives back single-spaced text. */
  lemma {:induction false} JoinFields(s: string)
    requires SingleSpaced(s)
    ensures Join(Fields(s)) == s
    decreases |s|
  {
    if s != [] {
      var n := TokenLength(s);
      var t := s[..n];
      if n == |s| {
        assert t == s && s[n..] == [];
        assert Fields(s) == [s];
      } else {
        var rest := s[n + 1..];
        SingleSpacedTail(s, n);
        assert Join(Fields(rest)) == rest && Fields(rest) != [] by {
          JoinFields(rest);
          FieldsNotEmpty(rest);
        }
        assert s == t + (" " + rest);
        assert Fields(s) == [t] + Fields(rest) by { FieldsCons(t, " ", rest); }
        JoinCons(t, Fields(rest));
      }
    }
  }

  // ---------------------------------------------------------------- numbers

  function DigitValue(c: char): int {
    if '0' <= c <= '9' then c as int - '0' as int
    else if 'a' <= c <= 'f' then c as int - 'a' as int + 10
    else if 'A' <= c <= 'F' then c as int - 'A' as int + 10
    else 99
  }

  function DigitChar(d: nat): (c: char)
    requires d < 16
    ensures DigitValue(c) == d
    ensures '0' <= c <= '9' || 'a' <= c <= 'f'
    ensures d < 10 ==> '0' <= c <= '9'
  {
    if d < 10 then ('0' as int + d) as char else ('a' as int + d - 10) as char
  }

  datatype Base = Ten | Sixteen {
    function Radix(): nat { if Ten? then 10 else 16 }
    function Quotient(n: nat): nat { if Ten? then n / 10 else n / 16 }
    function Remainder(n: nat): nat { if Ten? then n % 10 else n % 16 }
    function Times(n: nat): nat { if Ten? then n * 10 else n * 16 }
  }

  predicate PrintedDigit(c: char, base: Base) {
    '0' <= c <= '9' || (base.Sixteen? && 'a' <= c <= 'f')
  }

  /** The %d and %x verbs on a non-negative number. */
  function Digits(n: nat, base: Base): (s: string)
    ensures s != []
    ensures forall i :: 0 <= i < |s| ==> PrintedDigit(s[i], base)
  {
    if n < base.Radix() then [DigitChar(n)] else Digits(base.Quotient(n), base) + [DigitChar(base.Remainder(n))]
  }

  /** The %d verb on any integer. */
  function Decimal(i: int): string {
    if i < 0 then "-" + Digits(-i, Ten) else Digits(i, Ten)
  }

  function DigitsValue(s: string, base: Base): Option<nat> {
    if s == [] then Some(0)
    else
      var high := DigitsValue(s[..|s| - 1], base);
      var d := DigitValue(s[|s| - 1]);
      if high.Some? && d < base.Radix() then Some(base.Times(high.value) + d) else None
  }

  lemma {:induction false} DigitsRoundTrip(n: nat, base: Base)
    ensures DigitsValue(Digits(n, base), base) == Some(n)
  {
    var s := Digits(n, base);
    var high := s[..|s| - 1];
    if n < base.Radix() {
      assert high == [];
    } else {
      DigitsRoundTrip(base.Quotient(n), base);
      assert high == Digits(base.Quotient(n), base);
    }
  }

  /** strconv.ParseUint: None is a syntax error, a value past the limit a range error. */
  function ParseUint(s: string, base: Base): Option<nat> {
    if s == [] then None else DigitsValue(s, base)
  }

  /** strconv.ParseInt in base 10, before its range check. */
  function ParseInt(s: string): Option<int> {
    if s == [] then None
    else if s[0] == '-' || s[0] == '+' then
      match ParseUint(s[1..], Ten)
      case Some(n) => Some(if s[0] == '-' then -(n as int) else n as int)
      case None => None
    else
      match ParseUint(s, Ten)
      case Some(n) => Some(n as int)
      case None => None
  }

  lemma {:induction false} ParseDecimal(i: int)
    ensures ParseInt(Decimal(i)) == Some(i)
  {
    if i < 0 {
      DigitsRoundTrip(-i, Ten);
      assert Decimal(i)[1..] == Digits(-i, Ten);
    } else {
      DigitsRoundTrip(i, Ten);
      assert PrintedDigit(Decimal(i)[0], Ten);
    }
  }

  /** Only signs and digits parse, so a number is a token. */
  lemma {:induction false} NumberCharacters(s: string, base: Base)
    requires DigitsValue(s, base).Some?
    ensures forall i :: 0 <= i < |s| ==> DigitValue(s[i]) < base.Radix() && !IsSpace(s[i])
  {
    if s != [] { NumberCharacters(s[..|s| - 1], base); }
  }
}
