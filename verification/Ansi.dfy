/**
 ANSI escape sequences to HTML (`src/console/ansi.ts`, with `escapeHtml` of `src/console/templates.ts`).

 The scanner is one left-to-right loop. It is proved against a grammar of escape sequences (control
 sequences as in section 5.4 of ECMA-48) and a reader of the HTML it writes: reading the output back gives
 every character outside the escape sequences, each with the style in force at that point.
 */
module Ansi {
  import opened Wrappers

  const ESC := '\U{1B}'
  const BEL := '\U{07}'

  // ---------- HTML text ----------

  function ReplaceAll(text: string, c: char, sub: string): string {
    if text == "" then "" else (if text[0] == c then sub else [text[0]]) + ReplaceAll(text[1..], c, sub)
  }

  function EscapeHtml(value: string): string {
    ReplaceAll(ReplaceAll(ReplaceAll(ReplaceAll(value, '&', "&amp;"), '<', "&lt;"), '>', "&gt;"), '"', "&quot;")
  }

  /** How one character is written in HTML text. */
  function Entity(c: char): string {
    if c == '&' then "&amp;" else if c == '<' then "&lt;" else if c == '>' then "&gt;" else if c == '"' then "&quot;"
    else [c]
  }

  function EntityText(text: string): string {
    if text == "" then "" else Entity(text[0]) + EntityText(text[1..])
  }

  lemma {:induction false} ReplaceAllConcat(a: string, b: string, c: char, sub: string)
    ensures ReplaceAll(a + b, c, sub) == ReplaceAll(a, c, sub) + ReplaceAll(b, c, sub)
  {
    if a == "" {
      assert a + b == b;
    } else {
      assert (a + b)[1..] == a[1..] + b;
      ReplaceAllConcat(a[1..], b, c, sub);
      Assoc(if a[0] == c then sub else [a[0]], ReplaceAll(a[1..], c, sub), ReplaceAll(b, c, sub));
    }
  }

  lemma {:induction false} ReplaceAllAbsent(text: string, c: char, sub: string)
    requires c !in text
    ensures ReplaceAll(text, c, sub) == text
  {
    if text != "" {
      ReplaceAllAbsent(text[1..], c, sub);
    }
  }

  lemma Assoc(a: string, b: string, c: string)
    ensures (a + b) + c == a + (b + c)
  {
  }

  lemma EscapeHtmlConcat(a: string, b: string)
    ensures EscapeHtml(a + b) == EscapeHtml(a) + EscapeHtml(b)
  {
    ReplaceAllConcat(a, b, '&', "&amp;");
    var a1, b1 := ReplaceAll(a, '&', "&amp;"), ReplaceAll(b, '&', "&amp;");
    ReplaceAllConcat(a1, b1, '<', "&lt;");
    var a2, b2 := ReplaceAll(a1, '<', "&lt;"), ReplaceAll(b1, '<', "&lt;");
    ReplaceAllConcat(a2, b2, '>', "&gt;");
    ReplaceAllConcat(ReplaceAll(a2, '>', "&gt;"), ReplaceAll(b2, '>', "&gt;"), '"', "&quot;");
  }

  lemma ReplaceAllOne(c: char, d: char, sub: string)
    ensures ReplaceAll([c], d, sub) == if c == d then sub else [c]
  {
    assert [c][1..] == "";
    assert sub + "" == sub;
  }

  lemma EscapeAmp()
    ensures EscapeHtml(['&']) == "&amp;"
  {
    hide ReplaceAll;
    ReplaceAllOne('&', '&', "&amp;");
    ReplaceAllAbsent("&amp;", '<', "&lt;");
    ReplaceAllAbsent("&amp;", '>', "&gt;");
    ReplaceAllAbsent("&amp;", '"', "&quot;");
  }

  lemma EscapeLt()
    ensures EscapeHtml(['<']) == "&lt;"
  {
    ReplaceAllOne('<', '&', "&amp;");
    ReplaceAllOne('<', '<', "&lt;");
    ReplaceAllAbsent("&lt;", '>', "&gt;");
    ReplaceAllAbsent("&lt;", '"', "&quot;");
  }

  lemma EscapeGt()
    ensures EscapeHtml(['>']) == "&gt;"
  {
    ReplaceAllOne('>', '&', "&amp;");
    ReplaceAllOne('>', '<', "&lt;");
    ReplaceAllOne('>', '>', "&gt;");
    ReplaceAllAbsent("&gt;", '"', "&quot;");
  }

  lemma EscapeQuot()
    ensures EscapeHtml(['"']) == "&quot;"
  {
    ReplaceAllOne('"', '&', "&amp;");
    ReplaceAllOne('"', '<', "&lt;");
    ReplaceAllOne('"', '>', "&gt;");
    ReplaceAllOne('"', '"', "&quot;");
  }

  lemma EscapeHtmlOne(c: char)
    ensures EscapeHtml([c]) == Entity(c)
  {
    match c
    case '&' => EscapeAmp();
    case '<' => EscapeLt();
    case '>' => EscapeGt();
    case '"' => EscapeQuot();
    case _ =>
      ReplaceAllAbsent([c], '&', "&amp;");
      ReplaceAllAbsent([c], '<', "&lt;");
      ReplaceAllAbsent([c], '>', "&gt;");
      ReplaceAllAbsent([c], '"', "&quot;");
  }

  /** The four replacements in a row never touch each other's output: each character is escaped on its own. */
  lemma {:induction false} EscapesEachCharacter(text: string)
    ensures EscapeHtml(text) == EntityText(text)
  {
    if text != "" {
      assert text == [text[0]] + text[1..];
      EscapeHtmlConcat([text[0]], text[1..]);
      EscapeHtmlOne(text[0]);
      EscapesEachCharacter(text[1..]);
    }
  }

  // ---------- Graphic rendition ----------

  /** `color` is one of the 16 foreground codes below. */
  datatype Style = Style(color: Option<int>, bold: bool, dim: bool)

  const PLAIN := Style(None, false, false)

  predicate IsForeground(code: int) {
    30 <= code <= 37 || 90 <= code <= 97
  }

  function ColorHex(code: int): string {
    match code
    case 30 => "#000000"
    case 31 => "#c62828"
    case 32 => "#2e7d32"
    case 33 => "#b8860b"
    case 34 => "#1565c0"
    case 35 => "#8e24aa"
    case 36 => "#00838f"
    case 37 => "#555555"
    case 90 => "#757575"
    case 91 => "#e53935"
    case 92 => "#43a047"
    case 93 => "#f9a825"
    case 94 => "#1e88e5"
    case 95 => "#ab47bc"
    case 96 => "#00acc1"
    case 97 => "#333333"
    case _ => "undefined"
  }

  function StyleToCss(style: Style): Option<string> {
    var color := if style.color.Some? then ["color:" + ColorHex(style.color.value)] else [];
    var bold := if style.bold then ["font-weight:bold"] else [];
    var dim := if style.dim then ["opacity:0.65"] else [];
    var parts := color + bold + dim;
    if parts == [] then None else Some(JoinParts(parts))
  }

  function JoinParts(parts: seq<string>): string
    requires parts != []
  {
    if |parts| == 1 then parts[0] else parts[0] + ";" + JoinParts(parts[1..])
  }

  function SplitAt(params: string, separator: char): (tokens: seq<string>)
    ensures tokens != []
  {
    if params == "" then [""]
    else
      var rest := SplitAt(params[1..], separator);
      if params[0] == separator then [""] + rest else [[params[0]] + rest[0]] + rest[1..]
  }

  predicate IsSpace(c: char) {
    c in "\t\n\r \U{0B}\U{0C}\U{A0}\U{1680}\U{2028}\U{2029}\U{202F}\U{205F}\U{3000}\U{FEFF}"
    || '\U{2000}' <= c <= '\U{200A}'
  }

  function TrimStart(s: string): string {
    if s != "" && IsSpace(s[0]) then TrimStart(s[1..]) else s
  }

  function TrimEnd(s: string): string {
    if s != "" && IsSpace(s[|s| - 1]) then TrimEnd(s[..|s| - 1]) else s
  }

  predicate AllDigits(s: string) {
    forall i :: 0 <= i < |s| ==> '0' <= s[i] <= '9'
  }

  function Decimal(digits: string): nat
    requires AllDigits(digits)
  {
    if digits == "" then 0
    else Decimal(digits[..|digits| - 1]) * 10 + (digits[|digits| - 1] as int - '0' as int)
  }

  /** The whole number an unsigned decimal literal denotes, if it denotes one. */
  function UnsignedInteger(s: string): Option<int> {
    var parts := SplitAt(s, '.');
    if |parts| > 2 || !AllDigits(parts[0]) || (|parts| == 2 && !AllDigits(parts[1])) then None
    else if parts[0] == "" && (|parts| == 1 || parts[1] == "") then None
    else if |parts| == 2 && exists c | c in parts[1] :: c != '0' then None
    else Some(Decimal(parts[0]))
  }

  /** `Number(token)` where that is an integer; a parameter string has no letters, so only decimals arise. */
  function IntegerOf(token: string): Option<int> {
    var s := TrimEnd(TrimStart(token));
    if s == "" then Some(0)
    else if s[0] == '-' then
      match UnsignedInteger(s[1..]) { case Some(n) => Some(-n) case None => None }
    else UnsignedInteger(if s[0] == '+' then s[1..] else s)
  }

  /** An empty parameter counts as 0. */
  lemma EmptyIsZero()
    ensures IntegerOf("") == Some(0)
  {
  }

  /** What one code does to the style; unsupported codes do nothing. */
  function ApplyCode(code: int, style: Style): Style {
    if code == 0 then PLAIN
    else if code == 1 then style.(bold := true)
    else if code == 2 then style.(dim := true)
    else if code == 39 then style.(color := None)
    else if IsForeground(code) then style.(color := Some(code))
    else style
  }

  /** How many tokens belong to the code at `i`: an extended colour takes its arguments with it. */
  function TokensTaken(tokens: seq<string>, i: nat): (n: nat)
    requires i < |tokens|
    ensures n >= 1
  {
    if IntegerOf(tokens[i]) in {Some(38), Some(48)} && i + 1 < |tokens| then
      if tokens[i + 1] == "5" then 3 else if tokens[i + 1] == "2" then 5 else 1
    else 1
  }

  function ApplyTokens(tokens: seq<string>, i: nat, style: Style): Style
    decreases |tokens| - i
  {
    if i >= |tokens| then style
    else
      var next := match IntegerOf(tokens[i]) case Some(code) => ApplyCode(code, style) case None => style;
      ApplyTokens(tokens, i + TokensTaken(tokens, i), next)
  }

  /** The style a whole parameter string leaves behind. */
  function ApplySgr(params: string, style: Style): Style {
    ApplyTokens(SplitAt(params, ';'), 0, style)
  }

  // ---------- What a parameter string means ----------

  predicate IsExtendedColour(tokens: seq<string>) {
    |tokens| > 1 && IntegerOf(tokens[0]) in {Some(38), Some(48)} && tokens[1] in {"2", "5"}
  }

  /** The codes in a list of parameters; an extended colour and its arguments, as many as are there, are none. */
  function CodesOf(tokens: seq<string>): seq<int> {
    if tokens == [] then []
    else if IsExtendedColour(tokens) then
      var taken := if tokens[1] == "5" then 3 else 5;
      CodesOf(tokens[if taken < |tokens| then taken else |tokens|..])
    else
      (match IntegerOf(tokens[0]) case Some(code) => [code] case None => []) + CodesOf(tokens[1..])
  }

  /** The last of the codes that is among the writers of an attribute. */
  function LastOf(codes: seq<int>, writers: set<int>): Option<int> {
    if codes == [] then None
    else if codes[|codes| - 1] in writers then Some(codes[|codes| - 1])
    else LastOf(codes[..|codes| - 1], writers)
  }

  const FOREGROUND := {30, 31, 32, 33, 34, 35, 36, 37, 90, 91, 92, 93, 94, 95, 96, 97}

  /** Each attribute is what its last writer says, or what it was. */
  function Shown(codes: seq<int>, style: Style): Style {
    Style(
      match LastOf(codes, FOREGROUND + {39, 0}) {
        case Some(code) => if code in FOREGROUND then Some(code) else None
        case None => style.color
      },
      match LastOf(codes, {1, 0}) { case Some(code) => code == 1 case None => style.bold },
      match LastOf(codes, {2, 0}) { case Some(code) => code == 2 case None => style.dim })
  }

  lemma {:induction false} LastOfConcat(a: seq<int>, b: seq<int>, writers: set<int>)
    ensures LastOf(a + b, writers) == if LastOf(b, writers).Some? then LastOf(b, writers) else LastOf(a, writers)
  {
    if b == [] {
      assert a + b == a;
    } else {
      assert (a + b)[..|a + b| - 1] == a + b[..|b| - 1];
      LastOfConcat(a, b[..|b| - 1], writers);
    }
  }

  lemma ShownConcat(a: seq<int>, b: seq<int>, style: Style)
    ensures Shown(a + b, style) == Shown(b, Shown(a, style))
  {
    LastOfConcat(a, b, FOREGROUND + {39, 0});
    LastOfConcat(a, b, {1, 0});
    LastOfConcat(a, b, {2, 0});
    hide LastOf;
  }

  lemma OneCodeShown(code: int, style: Style)
    ensures Shown([code], style) == ApplyCode(code, style)
  {
    LastOfOne(code, FOREGROUND + {39, 0});
    LastOfOne(code, {1, 0});
    LastOfOne(code, {2, 0});
    hide LastOf;
    assert IsForeground(code) <==> code in FOREGROUND;
  }

  lemma LastOfOne(code: int, writers: set<int>)
    ensures LastOf([code], writers) == if code in writers then Some(code) else None
  {
    assert [code][..0] == [];
  }

  lemma {:induction false} TokensShowTheirCodes(tokens: seq<string>, i: nat, style: Style)
    requires i <= |tokens|
    ensures ApplyTokens(tokens, i, style) == Shown(CodesOf(tokens[i..]), style)
    decreases |tokens| - i
  {
    if i < |tokens| {
      var rest, taken := tokens[i..], TokensTaken(tokens, i);
      var next := if i + taken < |tokens| then i + taken else |tokens|;
      if IsExtendedColour(rest) {
        TokensShowTheirCodes(tokens, next, style);
        assert tokens[next..] == rest[next - i..];
      } else {
        assert rest[1..] == tokens[i + 1..];
        if IntegerOf(tokens[i]).Some? {
          var code := IntegerOf(tokens[i]).value;
          TokensShowTheirCodes(tokens, i + 1, ApplyCode(code, style));
          OneCodeShown(code, style);
          ShownConcat([code], CodesOf(tokens[i + 1..]), style);
        } else {
          TokensShowTheirCodes(tokens, i + 1, style);
          assert [] + CodesOf(tokens[i + 1..]) == CodesOf(tokens[i + 1..]);
        }
      }
    }
  }

  /** The last writer of each attribute wins, whatever else the parameter string holds. */
  lemma LastWriterWins(params: string, style: Style)
    ensures ApplySgr(params, style) == Shown(CodesOf(SplitAt(params, ';')), style)
  {
    var tokens := SplitAt(params, ';');
    TokensShowTheirCodes(tokens, 0, style);
    assert tokens[0..] == tokens;
  }

  class SgrStyle {
    var color: Option<int>
    var bold: bool
    var dim: bool

    constructor ()
      ensures Value() == PLAIN
    {
      color, bold, dim := None, false, false;
    }

    function Value(): Style
      reads this
    {
      Style(color, bold, dim)
    }

    method ApplySgrParams(params: string)
      modifies this
      ensures Value() == ApplySgr(params, old(Value()))
    {
      hide IntegerOf, SplitAt;
      EmptyIsZero();
      var tokens := SplitAt(params, ';');
      var idx := 0;
      while idx < |tokens|
        invariant ApplyTokens(tokens, idx, Value()) == ApplySgr(params, old(Value()))
        decreases |tokens| - idx
      {
        var token := tokens[idx];
        var taken := 1;
        var number := if token == "" then Some(0) else IntegerOf(token);
        if number.Some? {
          var code := number.value;
          if code == 0 {
            color, bold, dim := None, false, false;
          } else if code == 1 {
            bold := true;
          } else if code == 2 {
            dim := true;
          } else if code == 39 {
            color := None;
          } else if (code >= 30 && code <= 37) || (code >= 90 && code <= 97) {
            color := Some(code);
          } else if code == 38 || code == 48 {
            if idx + 1 < |tokens| && tokens[idx + 1] == "5" {
              taken := 3;
            } else if idx + 1 < |tokens| && tokens[idx + 1] == "2" {
              taken := 5;
            }
          }
        }
        idx := idx + taken;
      }
    }
  }

  function Digits(n: nat): (digits: string)
    ensures digits != "" && AllDigits(digits) && Decimal(digits) == n
  {
    var last := ('0' as int + n % 10) as char;
    if n < 10 then [last] else Digits(n / 10) + [last]
  }

  lemma UnsignedReadsBack(digits: string)
    requires digits != "" && AllDigits(digits)
    ensures UnsignedInteger(digits) == Some(Decimal(digits))
  {
    SplitNone(digits, '.');
    hide Decimal, SplitAt;
  }

  lemma NothingToTrim(s: string)
    requires s != "" && (s[0] == '-' || '0' <= s[0] <= '9') && '0' <= s[|s| - 1] <= '9'
    ensures TrimEnd(TrimStart(s)) == s
  {
  }

  lemma DigitsAreRead(digits: string)
    requires digits != "" && AllDigits(digits)
    ensures IntegerOf(digits) == Some(Decimal(digits))
  {
    assert '0' <= digits[0] <= '9' && '0' <= digits[|digits| - 1] <= '9';
    hide Decimal, UnsignedInteger, AllDigits, TrimStart, TrimEnd, IsSpace;
    UnsignedReadsBack(digits);
    NothingToTrim(digits);
  }

  lemma NegativesAreRead(negative: string)
    requires |negative| > 1 && negative[0] == '-' && AllDigits(negative[1..])
    ensures IntegerOf(negative) == Some(0 - Decimal(negative[1..]))
  {
    var digits := negative[1..];
    assert '0' <= digits[|digits| - 1] <= '9' && digits[|digits| - 1] == negative[|negative| - 1];
    hide Decimal, UnsignedInteger, AllDigits, TrimStart, TrimEnd, IsSpace;
    UnsignedReadsBack(digits);
    NothingToTrim(negative);
  }

  /** A number written out is read as that number. */
  lemma NumbersReadBack(n: nat)
    ensures IntegerOf(Digits(n)) == Some(n) && IntegerOf(['-'] + Digits(n)) == Some(0 - n)
  {
    DigitsAreRead(Digits(n));
    assert (['-'] + Digits(n))[1..] == Digits(n);
    NegativesAreRead(['-'] + Digits(n));
    hide IntegerOf, Decimal, AllDigits;
  }

  // ---------- What a style sheet entry says ----------

  predicate Declares(css: Option<string>, declaration: string) {
    css.Some? && declaration in SplitAt(css.value, ';')
  }

  lemma {:induction false} SplitNone(part: string, separator: char)
    requires separator !in part
    ensures SplitAt(part, separator) == [part]
  {
    if part != "" {
      SplitNone(part[1..], separator);
      assert part == [part[0]] + part[1..];
    }
  }

  lemma {:induction false} SplitFirst(part: string, rest: string, separator: char)
    requires separator !in part
    ensures SplitAt(part + [separator] + rest, separator) == [part] + SplitAt(rest, separator)
  {
    var whole := part + [separator] + rest;
    if part == "" {
      assert whole[0] == separator && whole[1..] == rest;
    } else {
      assert whole[0] == part[0] && whole[1..] == part[1..] + [separator] + rest;
      SplitFirst(part[1..], rest, separator);
      assert part == [part[0]] + part[1..];
      assert ([part[1..]] + SplitAt(rest, separator))[1..] == SplitAt(rest, separator);
    }
  }

  lemma {:induction false} SplitJoined(parts: seq<string>)
    requires parts != [] && forall i :: 0 <= i < |parts| ==> ';' !in parts[i]
    ensures SplitAt(JoinParts(parts), ';') == parts
  {
    if |parts| == 1 {
      SplitNone(parts[0], ';');
    } else {
      SplitJoined(parts[1..]);
      assert parts[0] + ";" + JoinParts(parts[1..]) == parts[0] + [';'] + JoinParts(parts[1..]);
      SplitFirst(parts[0], JoinParts(parts[1..]), ';');
    }
  }

  lemma ColoursDiffer(code: int, other: int)
    requires code in FOREGROUND && other in FOREGROUND
    ensures ColorHex(code) == ColorHex(other) ==> code == other
    ensures ';' !in ColorHex(code)
  {
    var a, b := ColorHex(code), ColorHex(other);
    if a == b {
      assert a[1] == b[1] && a[2] == b[2] && a[3] == b[3] && a[4] == b[4];
    }
  }

  lemma PartsOfCss(style: Style)
    requires style.color.Some? ==> style.color.value in FOREGROUND
    ensures var color := if style.color.Some? then ["color:" + ColorHex(style.color.value)] else [];
      var bold := if style.bold then ["font-weight:bold"] else [];
      var dim := if style.dim then ["opacity:0.65"] else [];
      forall part :: Declares(StyleToCss(style), part) <==> part in color || part in bold || part in dim
  {
    var color := if style.color.Some? then ["color:" + ColorHex(style.color.value)] else [];
    var bold := if style.bold then ["font-weight:bold"] else [];
    var dim := if style.dim then ["opacity:0.65"] else [];
    var parts := color + bold + dim;
    if style.color.Some? {
      ColoursDiffer(style.color.value, style.color.value);
      assert ';' !in color[0];
    }
    hide ColorHex;
    if parts != [] {
      SplitJoined(parts);
    }
  }

  /** A style is bold, dim and of a colour exactly if its entry says so, and no two colours are written alike. */
  lemma CssSaysTheStyle(style: Style, code: int)
    requires (style.color.Some? ==> style.color.value in FOREGROUND) && code in FOREGROUND
    ensures Declares(StyleToCss(style), "font-weight:bold") <==> style.bold
    ensures Declares(StyleToCss(style), "opacity:0.65") <==> style.dim
    ensures Declares(StyleToCss(style), "color:" + ColorHex(code)) <==> style.color == Some(code)
  {
    hide StyleToCss, Declares, ColorHex;
    PartsOfCss(style);
    var bold, dim, color := "font-weight:bold", "opacity:0.65", "color:" + ColorHex(code);
    assert bold[0] == 'f' && dim[0] == 'o' && color[0] == 'c';
    if style.color.Some? {
      ColoursDiffer(style.color.value, code);
      var own := "color:" + ColorHex(style.color.value);
      assert own[0] == 'c' && own[6..] == ColorHex(style.color.value) && color[6..] == ColorHex(code);
    }
  }

  // ---------- The grammar of escape sequences ----------

  predicate IsCsiFinalByte(c: char) {
    0x40 <= c as int <= 0x7E
  }

  /** A terminator of an OSC string starts here: `BEL`, or `ESC \`. */
  predicate OscEndsAt(s: string, j: nat) {
    j < |s| && (s[j] == BEL || (s[j] == ESC && j + 1 < |s| && s[j + 1] == '\\'))
  }

  /**
   One stretch of terminal output: a character of text, a control sequence, an operating system command
   with either terminator, another two-character escape, or a sequence the input ends inside of.
   */
  datatype Piece =
    | Text(c: char)
    | Csi(params: string, final: char)
    | OscBel(body: string)
    | OscSt(body: string)
    | Short(second: char)
    | Cut(rest: string)

  function Unparse(piece: Piece): string {
    match piece
    case Text(c) => [c]
    case Csi(params, final) => [ESC, '['] + params + [final]
    case OscBel(body) => [ESC, ']'] + body + [BEL]
    case OscSt(body) => [ESC, ']'] + body + [ESC, '\\']
    case Short(second) => [ESC, second]
    case Cut(rest) => [ESC] + rest
  }

  ghost predicate NoFinalByte(s: string) {
    forall j :: 0 <= j < |s| ==> !IsCsiFinalByte(s[j])
  }

  /** No terminator starts within the first `n` characters of `s`. */
  ghost predicate NoOscEnd(s: string, n: nat) {
    forall j: nat | j < n :: !OscEndsAt(s, j)
  }

  ghost predicate WellFormed(piece: Piece) {
    match piece
    case Text(c) => c != ESC
    case Csi(params, final) => NoFinalByte(params) && IsCsiFinalByte(final)
    case OscBel(body) => NoOscEnd(body + [BEL], |body|)
    case OscSt(body) => NoOscEnd(body + [ESC, '\\'], |body|)
    case Short(second) => second != '[' && second != ']'
    case Cut(rest) =>
      || rest == ""
      || (rest[0] == '[' && NoFinalByte(rest[1..]))
      || (rest[0] == ']' && NoOscEnd(rest[1..], |rest[1..]|))
  }

  /** Only the last stretch may be cut short by the end of the input. */
  ghost predicate Grammatical(pieces: seq<Piece>) {
    && (forall k :: 0 <= k < |pieces| ==> WellFormed(pieces[k]))
    && (forall k :: 0 <= k < |pieces| - 1 ==> !pieces[k].Cut?)
  }

  function UnparseAll(pieces: seq<Piece>): string {
    if pieces == [] then "" else Unparse(pieces[0]) + UnparseAll(pieces[1..])
  }

  /** The first final byte at or after `j`, or the end. */
  function CsiEnd(s: string, j: nat): (end: nat)
    requires j <= |s|
    ensures j <= end <= |s| && (end < |s| ==> IsCsiFinalByte(s[end]))
    ensures forall k :: j <= k < end ==> !IsCsiFinalByte(s[k])
    decreases |s| - j
  {
    if j == |s| || IsCsiFinalByte(s[j]) then j else CsiEnd(s, j + 1)
  }

  /** Where the first OSC terminator at or after `j` starts, or the end. */
  function OscEnd(s: string, j: nat): (end: nat)
    requires j <= |s|
    ensures j <= end <= |s| && (end < |s| ==> OscEndsAt(s, end))
    ensures forall k: nat | j <= k < end :: !OscEndsAt(s, k)
    decreases |s| - j
  {
    if j == |s| || OscEndsAt(s, j) then j else OscEnd(s, j + 1)
  }

  /** The stretch at the front of `s`. */
  function FirstPiece(s: string): Piece
    requires s != ""
  {
    if s[0] != ESC then Text(s[0])
    else if |s| == 1 then Cut("")
    else if s[1] == '[' then
      var j := CsiEnd(s, 2);
      if j < |s| then Csi(s[2..j], s[j]) else Cut(s[1..])
    else if s[1] == ']' then
      var j := OscEnd(s, 2);
      if j == |s| then Cut(s[1..]) else if s[j] == BEL then OscBel(s[2..j]) else OscSt(s[2..j])
    else Short(s[1])
  }

  lemma FirstPieceIsFront(s: string)
    requires s != ""
    ensures WellFormed(FirstPiece(s)) && Unparse(FirstPiece(s)) <= s && Unparse(FirstPiece(s)) != ""
    ensures FirstPiece(s).Cut? ==> Unparse(FirstPiece(s)) == s
  {
    if s[0] == ESC && |s| > 1 && s[1] == ']' {
      var j := OscEnd(s, 2);
      if j == |s| {
        assert forall k: nat | k < |s[1..][1..]| :: OscEndsAt(s[1..][1..], k) == OscEndsAt(s, k + 2);
      } else if s[j] == BEL {
        assert forall k: nat | k < j - 2 :: OscEndsAt(s[2..j] + [BEL], k) ==> OscEndsAt(s, k + 2);
      } else {
        assert forall k: nat | k < j - 2 :: OscEndsAt(s[2..j] + [ESC, '\\'], k) ==> OscEndsAt(s, k + 2);
      }
    }
  }

  function Parse(s: string): seq<Piece>
    decreases |s|
  {
    if s == "" then []
    else
      FirstPieceIsFront(s);
      [FirstPiece(s)] + Parse(s[|Unparse(FirstPiece(s))|..])
  }

  lemma GrammaticalCons(piece: Piece, rest: seq<Piece>)
    requires WellFormed(piece) && Grammatical(rest) && (piece.Cut? ==> rest == [])
    ensures Grammatical([piece] + rest)
  {
  }

  lemma PrefixAndRest(p: string, s: string)
    requires p <= s
    ensures s == p + s[|p|..]
  {
  }

  /** `Parse` splits its input into grammatical stretches and loses nothing of it. */
  lemma {:induction false} ParseIsGrammatical(s: string)
    ensures Grammatical(Parse(s)) && UnparseAll(Parse(s)) == s
    decreases |s|
  {
    if s != "" {
      FirstPieceIsFront(s);
      var piece := FirstPiece(s);
      var rest := s[|Unparse(piece)|..];
      ParseIsGrammatical(rest);
      GrammaticalCons(piece, Parse(rest));
      PrefixAndRest(Unparse(piece), s);
      assert ([piece] + Parse(rest))[1..] == Parse(rest);
    }
  }

  lemma FirstPieceOfCsi(params: string, final: char, rest: string)
    requires NoFinalByte(params) && IsCsiFinalByte(final)
    ensures FirstPiece([ESC, '['] + params + [final] + rest) == Csi(params, final)
  {
    var s := [ESC, '['] + params + [final] + rest;
    var end := |params| + 2;
    assert s[2..end] == params && s[end] == final;
    assert forall k | 2 <= k < end :: s[k] == params[k - 2];
    assert CsiEnd(s, 2) == end;
  }

  /** An OSC string read in place: `body` and what follows it sit at index 2 of `s`. */
  lemma OscEndInPlace(s: string, body: string, tail: string)
    requires |s| >= 2 && body + tail <= s[2..] && NoOscEnd(body + tail, |body|) && OscEndsAt(body + tail, |body|)
    ensures OscEnd(s, 2) == |body| + 2 && s[2..|body| + 2] == body
  {
    assert s[2..|body| + 2] == (body + tail)[..|body|];
    assert forall k: nat | k < |body + tail| :: s[k + 2] == (body + tail)[k];
    assert OscEndsAt(s, |body| + 2);
    forall k: nat | 2 <= k < |body| + 2 ensures !OscEndsAt(s, k) {
      assert !OscEndsAt(body + tail, k - 2);
    }
  }

  lemma FirstPieceOfOscBel(body: string, rest: string)
    requires NoOscEnd(body + [BEL], |body|)
    ensures FirstPiece([ESC, ']'] + body + [BEL] + rest) == OscBel(body)
  {
    var s := [ESC, ']'] + body + [BEL] + rest;
    assert s[2..] == (body + [BEL]) + rest;
    OscEndInPlace(s, body, [BEL]);
  }

  lemma FirstPieceOfOscSt(body: string, rest: string)
    requires NoOscEnd(body + [ESC, '\\'], |body|)
    ensures FirstPiece([ESC, ']'] + body + [ESC, '\\'] + rest) == OscSt(body)
  {
    var s := [ESC, ']'] + body + [ESC, '\\'] + rest;
    assert s[2..] == (body + [ESC, '\\']) + rest;
    OscEndInPlace(s, body, [ESC, '\\']);
  }

  lemma FirstPieceOfCut(rest: string)
    requires WellFormed(Cut(rest))
    ensures FirstPiece([ESC] + rest) == Cut(rest)
  {
    var s := [ESC] + rest;
    assert s[1..] == rest;
    if rest != "" {
      assert s[2..] == rest[1..];
      assert forall k: nat | k < |rest[1..]| :: s[k + 2] == rest[1..][k];
      if rest[0] == '[' {
        assert CsiEnd(s, 2) == |s|;
      } else {
        forall k: nat | 2 <= k < |s| ensures !OscEndsAt(s, k) {
          assert !OscEndsAt(rest[1..], k - 2);
        }
      }
    }
  }

  /** Nothing after a complete stretch changes how it is read. */
  lemma FirstPieceOfUnparse(piece: Piece, rest: string)
    requires WellFormed(piece) && (piece.Cut? ==> rest == "")
    ensures FirstPiece(Unparse(piece) + rest) == piece
  {
    match piece
    case Text(_) =>
    case Short(_) =>
    case Csi(params, final) => FirstPieceOfCsi(params, final, rest);
    case OscBel(body) => FirstPieceOfOscBel(body, rest);
    case OscSt(body) => FirstPieceOfOscSt(body, rest);
    case Cut(r) =>
      FirstPieceOfCut(r);
      assert Unparse(piece) + "" == [ESC] + r;
  }

  /** The grammar is unambiguous, and `Parse` finds the one reading there is. */
  lemma {:induction false} ParseIsTheOnlyReading(pieces: seq<Piece>)
    requires Grammatical(pieces)
    ensures Parse(UnparseAll(pieces)) == pieces
  {
    if pieces != [] {
      var rest := UnparseAll(pieces[1..]);
      FirstPieceOfUnparse(pieces[0], rest);
      hide WellFormed, FirstPiece;
      ParseIsTheOnlyReading(pieces[1..]);
      var s := UnparseAll(pieces);
      FirstPieceIsFront(s);
      assert s[|Unparse(pieces[0])|..] == rest;
    }
  }

  // ---------- The HTML the scanner writes ----------

  const OPEN_SPAN := "<span style=\""
  const OPEN_SPAN_END := "\">"
  const CLOSE_SPAN := "</span>"

  function OpenTag(style: Style): string {
    match StyleToCss(style)
    case Some(css) => OPEN_SPAN + css + OPEN_SPAN_END
    case None => ""
  }

  function CloseTag(style: Style): string {
    if StyleToCss(style).Some? then CLOSE_SPAN else ""
  }

  predicate IsSgr(piece: Piece) {
    piece.Csi? && piece.final == 'm'
  }

  function NextStyle(piece: Piece, style: Style): Style {
    if IsSgr(piece) then ApplySgr(piece.params, style) else style
  }

  function PieceHtml(piece: Piece, style: Style): string {
    if piece.Text? then Entity(piece.c)
    else if IsSgr(piece) then CloseTag(style) + OpenTag(NextStyle(piece, style))
    else ""
  }

  /** The HTML from here to the end, with `style` in force and its span open. */
  function Render(pieces: seq<Piece>, style: Style): string {
    if pieces == [] then CloseTag(style)
    else PieceHtml(pieces[0], style) + Render(pieces[1..], NextStyle(pieces[0], style))
  }

  function IndexOf(s: string, c: char, from: nat): (k: nat)
    requires from <= |s|
    ensures from <= k <= |s| && (k < |s| ==> s[k] == c)
    ensures forall j :: from <= j < k ==> s[j] != c
    decreases |s| - from
  {
    if from == |s| || s[from] == c then from else IndexOf(s, c, from + 1)
  }

  lemma RenderStep(s: string, style: Style)
    requires s != ""
    ensures var piece := FirstPiece(s);
            && Unparse(piece) <= s
            && Render(Parse(s), style)
               == PieceHtml(piece, style) + Render(Parse(s[|Unparse(piece)|..]), NextStyle(piece, style))
  {
    FirstPieceIsFront(s);
    assert Parse(s)[1..] == Parse(s[|Unparse(FirstPiece(s))|..]);
  }

  lemma {:induction false} RenderTextRun(run: string, rest: string, style: Style)
    requires ESC !in run
    ensures Render(Parse(run + rest), style) == EscapeHtml(run) + Render(Parse(rest), style)
  {
    hide EscapeHtml, StyleToCss;
    EscapesEachCharacter(run);
    if run == "" {
      assert run + rest == rest;
    } else {
      var s := run + rest;
      RenderStep(s, style);
      assert s[0] == run[0] && s[1..] == run[1..] + rest;
      RenderTextRun(run[1..], rest, style);
      EscapesEachCharacter(run[1..]);
      Assoc(Entity(run[0]), EntityText(run[1..]), Render(Parse(rest), style));
    }
  }

  lemma {:induction false} CsiEndShift(s: string, e: nat, j: nat)
    requires e <= |s| && j <= |s[e..]|
    ensures CsiEnd(s[e..], j) + e == CsiEnd(s, e + j)
    decreases |s| - j
  {
    if j < |s[e..]| && !IsCsiFinalByte(s[e + j]) {
      CsiEndShift(s, e, j + 1);
    }
  }

  lemma {:induction false} OscEndShift(s: string, e: nat, j: nat)
    requires e <= |s| && j <= |s[e..]|
    ensures OscEnd(s[e..], j) + e == OscEnd(s, e + j)
    decreases |s| - j
  {
    assert OscEndsAt(s[e..], j) == OscEndsAt(s, e + j);
    if j < |s[e..]| && !OscEndsAt(s, e + j) {
      OscEndShift(s, e, j + 1);
    }
  }

  /** What is still to be written at position `i`. */
  ghost function Rest(input: string, i: nat, style: Style): string
    requires i <= |input|
  {
    Render(Parse(input[i..]), style)
  }

  lemma RestAfterRun(input: string, i: nat, e: nat, style: Style)
    requires i <= e <= |input| && ESC !in input[i..e]
    ensures Rest(input, i, style) == EscapeHtml(input[i..e]) + Rest(input, e, style)
  {
    assert input[i..] == input[i..e] + input[e..];
    RenderTextRun(input[i..e], input[e..], style);
  }

  /** The escape sequence at `e` read in place: where it ends and what it does. */
  lemma RestAfterEscape(input: string, e: nat, style: Style)
    requires e < |input| && input[e] == ESC
    ensures var piece := FirstPiece(input[e..]); var end := e + |Unparse(piece)|;
            && end <= |input|
            && Rest(input, e, style) == PieceHtml(piece, style) + Rest(input, end, NextStyle(piece, style))
  {
    var piece := FirstPiece(input[e..]);
    FirstPieceIsFront(input[e..]);
    RenderStep(input[e..], style);
    assert input[e..][|Unparse(piece)|..] == input[e + |Unparse(piece)|..];
  }

  lemma SilentPiece(input: string, e: nat, end: nat, style: Style)
    requires e < |input| && input[e] == ESC && !FirstPiece(input[e..]).Text? && !IsSgr(FirstPiece(input[e..]))
    requires end == e + |Unparse(FirstPiece(input[e..]))|
    ensures end <= |input| && Rest(input, e, style) == Rest(input, end, style)
  {
    hide StyleToCss, Render, Parse, FirstPiece, ApplySgr, Rest, Unparse, Entity;
    RestAfterEscape(input, e, style);
    assert "" + Rest(input, end, style) == Rest(input, end, style);
  }

  lemma CsiAt(input: string, e: nat)
    requires e + 1 < |input| && input[e] == ESC && input[e + 1] == '['
    ensures var j := CsiEnd(input, e + 2); var piece := FirstPiece(input[e..]);
            if j == |input| then piece.Cut? && e + |Unparse(piece)| == j
            else piece == Csi(input[e + 2..j], input[j]) && e + |Unparse(piece)| == j + 1
  {
    CsiEndShift(input, e, 2);
    var j := CsiEnd(input, e + 2);
    if j < |input| {
      assert input[e..][2..j - e] == input[e + 2..j];
    }
  }

  /** A control sequence at `e`: the scan goes on behind its final byte, restyled if that is an `m`. */
  lemma RestAfterCsi(input: string, e: nat, style: Style)
    requires e + 1 < |input| && input[e] == ESC && input[e + 1] == '['
    ensures var j := CsiEnd(input, e + 2);
            if j == |input| then Rest(input, e, style) == Rest(input, j, style)
            else if input[j] != 'm' then Rest(input, e, style) == Rest(input, j + 1, style)
            else var after := ApplySgr(input[e + 2..j], style);
                 Rest(input, e, style) == CloseTag(style) + OpenTag(after) + Rest(input, j + 1, after)
  {
    hide *;
    CsiAt(input, e);
    var j := CsiEnd(input, e + 2);
    if j == |input| {
      CutOrMove(FirstPiece(input[e..]));
      SilentPiece(input, e, j, style);
    } else if input[j] != 'm' {
      CutOrMove(FirstPiece(input[e..]));
      SilentPiece(input, e, j + 1, style);
    } else {
      RestAfterEscape(input, e, style);
      SgrPiece(input[e + 2..j], style);
    }
  }

  lemma CutOrMove(piece: Piece)
    requires piece.Cut? || (piece.Csi? && piece.final != 'm')
    ensures !piece.Text? && !IsSgr(piece)
  {
  }

  lemma SgrPiece(params: string, style: Style)
    ensures var piece := Csi(params, 'm');
            && NextStyle(piece, style) == ApplySgr(params, style)
            && PieceHtml(piece, style) == CloseTag(style) + OpenTag(ApplySgr(params, style))
  {
  }

  lemma OscAt(input: string, e: nat)
    requires e + 1 < |input| && input[e] == ESC && input[e + 1] == ']'
    ensures var j := OscEnd(input, e + 2); var piece := FirstPiece(input[e..]);
            && !piece.Text? && !IsSgr(piece)
            && e + |Unparse(piece)| == if j == |input| then j else if input[j] == BEL then j + 1 else j + 2
  {
    OscEndShift(input, e, 2);
  }

  lemma RestAfterOsc(input: string, e: nat, style: Style)
    requires e + 1 < |input| && input[e] == ESC && input[e + 1] == ']'
    ensures var j := OscEnd(input, e + 2);
            var end := if j == |input| then j else if input[j] == BEL then j + 1 else j + 2;
            end <= |input| && Rest(input, e, style) == Rest(input, end, style)
  {
    hide *;
    OscAt(input, e);
    var j := OscEnd(input, e + 2);
    SilentPiece(input, e, if j == |input| then j else if input[j] == BEL then j + 1 else j + 2, style);
  }

  lemma RestAfterShort(input: string, e: nat, style: Style)
    requires e < |input| && input[e] == ESC && (e + 1 < |input| ==> input[e + 1] != '[' && input[e + 1] != ']')
    ensures var end := if e + 1 < |input| then e + 2 else e + 1;
            Rest(input, e, style) == Rest(input, end, style)
  {
    SilentPiece(input, e, if e + 1 < |input| then e + 2 else e + 1, style);
  }

  // ---------- The scanner ----------

  method SkipCsi(input: string, from: nat) returns (j: nat)
    requires from <= |input|
    ensures j == CsiEnd(input, from)
  {
    j := from;
    while j < |input| && !IsCsiFinalByte(input[j])
      invariant j <= |input| && CsiEnd(input, j) == CsiEnd(input, from)
    {
      j := j + 1;
    }
  }

  method SkipOsc(input: string, from: nat) returns (end: nat)
    requires from <= |input|
    ensures var j := OscEnd(input, from);
            end == if j == |input| then |input| else if input[j] == BEL then j + 1 else j + 2
  {
    var j := from;
    while j < |input|
      invariant j <= |input| && OscEnd(input, j) == OscEnd(input, from)
    {
      if input[j] == BEL {
        return j + 1;
      }
      if input[j] == ESC && j + 1 < |input| && input[j + 1] == '\\' {
        return j + 2;
      }
      j := j + 1;
    }
    return |input|;
  }

  /** The HTML written so far and the style in force, changed in place as the scan goes on. */
  class Page {
    var output: string
    var spanOpen: bool
    const style: SgrStyle

    constructor ()
      ensures output == "" && !spanOpen && style.Value() == PLAIN && fresh(style)
    {
      output, spanOpen := "", false;
      style := new SgrStyle();
    }

    method CloseSpanIfOpen()
      modifies this
      ensures !spanOpen && output == old(output) + (if old(spanOpen) then CLOSE_SPAN else "")
    {
      if spanOpen {
        output := output + CLOSE_SPAN;
        spanOpen := false;
      }
    }

    method ReopenSpanForCurrentStyle()
      modifies this
      ensures spanOpen == StyleToCss(style.Value()).Some?
      ensures output == old(output) + (if old(spanOpen) then CLOSE_SPAN else "") + OpenTag(style.Value())
    {
      CloseSpanIfOpen();
      var css := StyleToCss(style.Value());
      if css.Some? {
        output := output + (OPEN_SPAN + css.value + OPEN_SPAN_END);
        spanOpen := true;
      }
    }

    /** `rest` is what remains to be written once this sequence has had its effect. */
    method Sgr(params: string, ghost rest: string)
      requires spanOpen == StyleToCss(style.Value()).Some?
      modifies this, style
      ensures style.Value() == ApplySgr(params, old(style.Value()))
      ensures spanOpen == StyleToCss(style.Value()).Some?
      ensures output + rest == old(output) + (CloseTag(old(style.Value())) + OpenTag(style.Value()) + rest)
    {
      ghost var before, close, written := style.Value(), CloseTag(style.Value()), output;
      style.ApplySgrParams(params);
      ReopenSpanForCurrentStyle();
      Assoc(written, close, OpenTag(style.Value()));
      Assoc(written, close + OpenTag(style.Value()), rest);
    }
  }

  method AnsiToHtml(input: string) returns (html: string)
    ensures html == Render(Parse(input), PLAIN)
    ensures ReadHtml(html, None) == Some(StyledByCodes(Parse(input), []))
  {
    var page := new Page();
    var i := 0;
    assert input[0..] == input;
    while i < |input|
      invariant i <= |input|
      invariant page.spanOpen == StyleToCss(page.style.Value()).Some?
      invariant page.output + Rest(input, i, page.style.Value()) == Render(Parse(input), PLAIN)
      invariant fresh(page) && fresh(page.style)
      decreases |input| - i
    {
      var escIndex := IndexOf(input, ESC, i);
      RestAfterRun(input, i, escIndex, page.style.Value());
      Assoc(page.output, EscapeHtml(input[i..escIndex]), Rest(input, escIndex, page.style.Value()));
      page.output := page.output + EscapeHtml(input[i..escIndex]);
      i := escIndex;
      if escIndex == |input| {
        break;
      }
      i := Escape(input, escIndex, page);
    }
    assert input[|input|..] == "";
    page.CloseSpanIfOpen();
    html := page.output;
    HtmlReadsBack(Parse(input), PLAIN);
    StylesFollowTheCodes(Parse(input), []);
  }

  /** The branch for what follows an `ESC`; returns where the scan goes on. */
  method Escape(input: string, e: nat, page: Page) returns (i: nat)
    requires e < |input| && input[e] == ESC
    requires page.spanOpen == StyleToCss(page.style.Value()).Some?
    modifies page, page.style
    ensures e < i <= |input|
    ensures page.spanOpen == StyleToCss(page.style.Value()).Some?
    ensures page.output + Rest(input, i, page.style.Value()) == old(page.output + Rest(input, e, page.style.Value()))
  {
    hide *;
    ghost var style := page.style.Value();
    if e + 1 == |input| {
      RestAfterShort(input, e, style);
      i := e + 1;
    } else if input[e + 1] == '[' {
      i := ControlSequence(input, e, page);
    } else if input[e + 1] == ']' {
      RestAfterOsc(input, e, style);
      i := SkipOsc(input, e + 2);
    } else {
      RestAfterShort(input, e, style);
      i := e + 2;
    }
  }

  method ControlSequence(input: string, e: nat, page: Page) returns (i: nat)
    requires e + 1 < |input| && input[e] == ESC && input[e + 1] == '['
    requires page.spanOpen == StyleToCss(page.style.Value()).Some?
    modifies page, page.style
    ensures e < i <= |input|
    ensures page.spanOpen == StyleToCss(page.style.Value()).Some?
    ensures page.output + Rest(input, i, page.style.Value()) == old(page.output + Rest(input, e, page.style.Value()))
  {
    hide *;
    ghost var style := page.style.Value();
    RestAfterCsi(input, e, style);
    var j := SkipCsi(input, e + 2);
    if j == |input| {
      return j;
    }
    i := j + 1;
    if input[j] == 'm' {
      page.Sgr(input[e + 2..j], Rest(input, i, ApplySgr(input[e + 2..j], style)));
    }
  }

  // ---------- Reading the HTML back ----------

  type StyledChar = (char, Option<string>)

  function Prepend(c: char, span: Option<string>, rest: Option<seq<StyledChar>>): Option<seq<StyledChar>> {
    match rest
    case Some(chars) => Some([(c, span)] + chars)
    case None => None
  }

  /**
   A strict reader of the HTML above: it refuses a span inside a span, a close without an open, a span left
   open, any other tag, any other entity and any character that must be an entity. `span` is the open span's
   style. The result gives each character with the style it is shown in.
   */
  function ReadHtml(html: string, span: Option<string>): Option<seq<StyledChar>>
    decreases |html|
  {
    if html == "" then if span.None? then Some([]) else None
    else if html[0] == '<' then
      if CLOSE_SPAN <= html then
        if span.Some? then ReadHtml(html[|CLOSE_SPAN|..], None) else None
      else if OPEN_SPAN <= html && span.None? then
        var quote := IndexOf(html, '"', |OPEN_SPAN|);
        if OPEN_SPAN_END <= html[quote..] then
          ReadHtml(html[quote + |OPEN_SPAN_END|..], Some(html[|OPEN_SPAN|..quote]))
        else None
      else None
    else if html[0] == '&' then
      if "&amp;" <= html then Prepend('&', span, ReadHtml(html[5..], span))
      else if "&lt;" <= html then Prepend('<', span, ReadHtml(html[4..], span))
      else if "&gt;" <= html then Prepend('>', span, ReadHtml(html[4..], span))
      else if "&quot;" <= html then Prepend('"', span, ReadHtml(html[6..], span))
      else None
    else if html[0] == '>' || html[0] == '"' then None
    else Prepend(html[0], span, ReadHtml(html[1..], span))
  }

  /** The characters outside escape sequences, each with the style the sequences before it add up to. */
  function Styled(pieces: seq<Piece>, style: Style): seq<StyledChar> {
    if pieces == [] then []
    else
      (if pieces[0].Text? then [(pieces[0].c, StyleToCss(style))] else [])
      + Styled(pieces[1..], NextStyle(pieces[0], style))
  }

  lemma ReadPlain(c: char, rest: string, span: Option<string>)
    requires c !in "<>&\""
    ensures ReadHtml([c] + rest, span) == Prepend(c, span, ReadHtml(rest, span))
  {
    assert ([c] + rest)[1..] == rest;
  }

  lemma ReadAmp(rest: string, span: Option<string>)
    ensures ReadHtml("&amp;" + rest, span) == Prepend('&', span, ReadHtml(rest, span))
  {
    assert ("&amp;" + rest)[5..] == rest;
  }

  lemma ReadLt(rest: string, span: Option<string>)
    ensures ReadHtml("&lt;" + rest, span) == Prepend('<', span, ReadHtml(rest, span))
  {
    var html := "&lt;" + rest;
    assert html[1] == 'l' && html[4..] == rest;
  }

  lemma ReadGt(rest: string, span: Option<string>)
    ensures ReadHtml("&gt;" + rest, span) == Prepend('>', span, ReadHtml(rest, span))
  {
    var html := "&gt;" + rest;
    assert html[1] == 'g' && html[4..] == rest;
  }

  lemma ReadQuot(rest: string, span: Option<string>)
    ensures ReadHtml("&quot;" + rest, span) == Prepend('"', span, ReadHtml(rest, span))
  {
    var html := "&quot;" + rest;
    assert html[1] == 'q' && html[6..] == rest;
  }

  lemma ReadEntity(c: char, rest: string, span: Option<string>)
    ensures ReadHtml(Entity(c) + rest, span) == Prepend(c, span, ReadHtml(rest, span))
  {
    match c
    case '&' => ReadAmp(rest, span);
    case '<' => ReadLt(rest, span);
    case '>' => ReadGt(rest, span);
    case '"' => ReadQuot(rest, span);
    case _ => ReadPlain(c, rest, span);
  }

  lemma ReadClose(rest: string, span: Option<string>)
    requires span.Some?
    ensures ReadHtml(CLOSE_SPAN + rest, span) == ReadHtml(rest, None)
  {
    assert (CLOSE_SPAN + rest)[|CLOSE_SPAN|..] == rest;
  }

  lemma ReadOpen(css: string, rest: string)
    requires NoQuote(css)
    ensures ReadHtml(OPEN_SPAN + css + OPEN_SPAN_END + rest, None) == ReadHtml(rest, Some(css))
  {
    var html := OPEN_SPAN + css + OPEN_SPAN_END + rest;
    assert html[1] != '/';
    var quote := |OPEN_SPAN| + |css|;
    assert forall k | |OPEN_SPAN| <= k < quote :: html[k] == css[k - |OPEN_SPAN|];
    assert html[quote] == '"';
    assert IndexOf(html, '"', |OPEN_SPAN|) == quote;
    assert html[|OPEN_SPAN|..quote] == css;
    assert html[quote..] == OPEN_SPAN_END + rest;
    assert html[quote + |OPEN_SPAN_END|..] == rest;
  }

  predicate NoQuote(s: string) {
    '"' !in s
  }

  lemma {:induction false} JoinHasNoQuote(parts: seq<string>)
    requires parts != [] && forall i :: 0 <= i < |parts| ==> NoQuote(parts[i])
    ensures NoQuote(JoinParts(parts))
  {
    if |parts| > 1 {
      JoinHasNoQuote(parts[1..]);
    }
  }

  lemma CssHasNoQuote(style: Style)
    requires StyleToCss(style).Some?
    ensures NoQuote(StyleToCss(style).value)
  {
    var color := if style.color.Some? then ["color:" + ColorHex(style.color.value)] else [];
    var bold := if style.bold then ["font-weight:bold"] else [];
    var dim := if style.dim then ["opacity:0.65"] else [];
    assert style.color.Some? ==> NoQuote(ColorHex(style.color.value)) && NoQuote(color[0]);
    assert style.bold ==> NoQuote(bold[0]);
    assert style.dim ==> NoQuote(dim[0]);
    JoinHasNoQuote(color + bold + dim);
  }

  /** A reader where a span may have to be closed ends up outside any span. */
  lemma ReadMaybeClose(style: Style, rest: string)
    ensures ReadHtml(CloseTag(style) + rest, StyleToCss(style)) == ReadHtml(rest, None)
  {
    if StyleToCss(style).Some? {
      ReadClose(rest, StyleToCss(style));
    } else {
      assert "" + rest == rest;
    }
  }

  lemma ReadMaybeOpen(style: Style, rest: string)
    ensures ReadHtml(OpenTag(style) + rest, None) == ReadHtml(rest, StyleToCss(style))
  {
    if StyleToCss(style).Some? {
      CssHasNoQuote(style);
      ReadOpen(StyleToCss(style).value, rest);
    } else {
      assert "" + rest == rest;
    }
  }

  lemma ReadPiece(piece: Piece, style: Style, rest: string)
    ensures ReadHtml(PieceHtml(piece, style) + rest, StyleToCss(style))
            == if piece.Text? then Prepend(piece.c, StyleToCss(style), ReadHtml(rest, StyleToCss(style)))
               else ReadHtml(rest, StyleToCss(NextStyle(piece, style)))
  {
    if piece.Text? {
      ReadEntity(piece.c, rest, StyleToCss(style));
    } else if IsSgr(piece) {
      var next := NextStyle(piece, style);
      Assoc(CloseTag(style), OpenTag(next), rest);
      ReadMaybeClose(style, OpenTag(next) + rest);
      ReadMaybeOpen(next, rest);
    } else {
      assert "" + rest == rest;
    }
  }

  /** Spans are balanced and never nested, and every character is shown in exactly its style. */
  lemma {:induction false} HtmlReadsBack(pieces: seq<Piece>, style: Style)
    ensures ReadHtml(Render(pieces, style), StyleToCss(style)) == Some(Styled(pieces, style))
  {
    if pieces == [] {
      ReadMaybeClose(style, "");
      assert CloseTag(style) + "" == CloseTag(style);
      assert ReadHtml("", None) == Some([]);
    } else {
      var next := NextStyle(pieces[0], style);
      HtmlReadsBack(pieces[1..], next);
      ReadPiece(pieces[0], style, Render(pieces[1..], next));
      assert [] + Styled(pieces[1..], next) == Styled(pieces[1..], next);
    }
  }

  /** The codes of one stretch of output: those of a control sequence that ends in `m`. */
  function CodesIn(piece: Piece): seq<int> {
    if piece.Csi? && piece.final == 'm' then CodesOf(SplitAt(piece.params, ';')) else []
  }

  /** The characters outside escape sequences, each with what all the codes before it add up to. */
  function StyledByCodes(pieces: seq<Piece>, codes: seq<int>): seq<StyledChar> {
    if pieces == [] then []
    else
      (if pieces[0].Text? then [(pieces[0].c, StyleToCss(Shown(codes, PLAIN)))] else [])
      + StyledByCodes(pieces[1..], codes + CodesIn(pieces[0]))
  }

  lemma {:induction false} StylesFollowTheCodes(pieces: seq<Piece>, codes: seq<int>)
    ensures Styled(pieces, Shown(codes, PLAIN)) == StyledByCodes(pieces, codes)
  {
    if pieces != [] {
      var more := CodesIn(pieces[0]);
      ShownConcat(codes, more, PLAIN);
      if IsSgr(pieces[0]) {
        LastWriterWins(pieces[0].params, Shown(codes, PLAIN));
      } else {
        assert codes + more == codes;
      }
      hide ApplySgr, CodesOf, Shown, StyleToCss;
      StylesFollowTheCodes(pieces[1..], codes + more);
    }
  }

  /** Repeating a sequence changes nothing. */
  lemma SgrIsIdempotent(params: string, style: Style)
    ensures ApplySgr(params, ApplySgr(params, style)) == ApplySgr(params, style)
  {
    LastWriterWins(params, style);
    LastWriterWins(params, ApplySgr(params, style));
    hide ApplySgr, CodesOf, LastOf;
  }
}
