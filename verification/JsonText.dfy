/**
 JSON text as written with an indent of two, and why a cut-off object or array is not JSON.
 */
module JsonText {

  /** A value; `Atom` is a number, true, false or null. The keys of an array's members are not written. */
  datatype Json = Atom(text: string) | Text(chars: string) | Array(items: Members) | Object(fields: Members)
  datatype Members = End | More(key: string, value: Json, rest: Members)

  predicate Structural(c: char) {
    c == '[' || c == ']' || c == '{' || c == '}' || c == '"'
  }

  predicate AtomChar(c: char) {
    'a' <= c <= 'z' || 'A' <= c <= 'Z' || '0' <= c <= '9' || c == '+' || c == '-' || c == '.'
  }

  function Keys(m: Members): set<string> {
    if m.End? then {} else {m.key} + Keys(m.rest)
  }

  /** A text of no other characters than those of atoms. */
  predicate IsWord(s: string) {
    forall i :: 0 <= i < |s| ==> AtomChar(s[i])
  }

  /** How many digits a text starts with. */
  function Digits(s: string): (n: nat)
    ensures n <= |s|
  {
    if s != "" && '0' <= s[0] <= '9' then 1 + Digits(s[1..]) else 0
  }

  /** Numbers as in section 6 of RFC 8259: no leading zero, no point or exponent without digits behind it. */
  predicate IsNumber(s: string) {
    var t := if s != "" && s[0] == '-' then s[1..] else s;
    var n := Digits(t);
    n >= 1 && (t[0] == '0' ==> n == 1) && IsFraction(t[n..])
  }

  predicate IsFraction(s: string) {
    if s != "" && s[0] == '.' then
      var n := Digits(s[1..]);
      n >= 1 && IsExponent(s[1..][n..])
    else IsExponent(s)
  }

  predicate IsExponent(s: string) {
    s == "" ||
    ((s[0] == 'e' || s[0] == 'E') &&
     var t := s[1..];
     var u := if t != "" && (t[0] == '+' || t[0] == '-') then t[1..] else t;
     u != "" && Digits(u) == |u|)
  }

  /** Numbers, the literal names of section 3 of RFC 8259, and the three more that Python writes and reads. */
  predicate IsAtom(s: string) {
    IsWord(s) && (s in ["true", "false", "null", "NaN", "Infinity", "-Infinity"] || IsNumber(s))
  }

  predicate AllDigits(s: string) {
    forall i :: 0 <= i < |s| ==> '0' <= s[i] <= '9'
  }

  /** The parts of a number, in the order of the grammar. */
  predicate NumberParts(sign: string, whole: string, fraction: string, exponent: string) {
    && (sign == "" || sign == "-")
    && whole != "" && AllDigits(whole) && (|whole| > 1 ==> whole[0] != '0')
    && (fraction == "" || (|fraction| > 1 && fraction[0] == '.' && AllDigits(fraction[1..])))
    && (exponent == "" || ExponentParts(exponent))
  }

  predicate ExponentParts(s: string) {
    && |s| > 1 && (s[0] == 'e' || s[0] == 'E')
    && if s[1] == '+' || s[1] == '-' then |s| > 2 && AllDigits(s[2..]) else AllDigits(s[1..])
  }

  lemma {:induction false} DigitsAre(s: string)
    ensures AllDigits(s[..Digits(s)]) && (Digits(s) < |s| ==> !('0' <= s[Digits(s)] <= '9'))
  {
    if s != "" && '0' <= s[0] <= '9' {
      DigitsAre(s[1..]);
      assert s[..Digits(s)] == [s[0]] + s[1..][..Digits(s) - 1];
    }
  }

  lemma {:induction false} DigitsThen(s: string, rest: string)
    requires AllDigits(s) && (rest == "" || !('0' <= rest[0] <= '9'))
    ensures Digits(s + rest) == |s| && (s + rest)[|s|..] == rest
  {
    if s == "" {
      assert s + rest == rest;
    } else {
      DigitsThen(s[1..], rest);
      assert (s + rest)[1..] == s[1..] + rest;
    }
  }

  lemma ExponentIsExact(s: string)
    ensures IsExponent(s) <==> s == "" || ExponentParts(s)
  {
    if s != "" {
      var t := s[1..];
      var u := if t != "" && (t[0] == '+' || t[0] == '-') then t[1..] else t;
      DigitsAre(u);
      if AllDigits(u) {
        DigitsThen(u, "");
        assert u + "" == u;
      }
      assert u[..|u|] == u;
      assert |s| > 1 ==> s[1] == t[0] && t[1..] == s[2..];
    }
  }

  lemma FractionIsExact(s: string) returns (fraction: string, exponent: string)
    ensures IsFraction(s) ==>
              && s == fraction + exponent && (exponent == "" || ExponentParts(exponent))
              && (fraction == "" || (|fraction| > 1 && fraction[0] == '.' && AllDigits(fraction[1..])))
  {
    if s != "" && s[0] == '.' {
      var n := Digits(s[1..]);
      DigitsAre(s[1..]);
      fraction, exponent := s[..n + 1], s[n + 1..];
      assert fraction[1..] == s[1..][..n] && exponent == s[1..][n..];
    } else {
      fraction, exponent := "", s;
      assert s == fraction + exponent;
    }
    ExponentIsExact(exponent);
  }

  lemma PartsMakeFraction(fraction: string, exponent: string)
    requires fraction == "" || (|fraction| > 1 && fraction[0] == '.' && AllDigits(fraction[1..]))
    requires exponent == "" || ExponentParts(exponent)
    ensures IsFraction(fraction + exponent)
  {
    ExponentIsExact(exponent);
    if fraction == "" {
      assert fraction + exponent == exponent;
    } else {
      DigitsThen(fraction[1..], exponent);
      assert (fraction + exponent)[1..] == fraction[1..] + exponent;
    }
  }

  ghost predicate HasParts(s: string) {
    exists sign, whole, fraction, exponent ::
      NumberParts(sign, whole, fraction, exponent) && s == sign + whole + fraction + exponent
  }

  lemma Joined(a: string, b: string, c: string, d: string)
    ensures a + (b + (c + d)) == a + b + c + d
  {
  }

  lemma UnsignedHasParts(t: string) returns (whole: string, fraction: string, exponent: string)
    requires var n := Digits(t); n >= 1 && (t[0] == '0' ==> n == 1) && IsFraction(t[n..])
    ensures NumberParts("", whole, fraction, exponent) && t == whole + (fraction + exponent)
  {
    var n := Digits(t);
    DigitsAre(t);
    whole := t[..n];
    fraction, exponent := FractionIsExact(t[n..]);
    assert t == whole + t[n..];
  }

  lemma NumberHasParts(s: string)
    requires IsNumber(s)
    ensures HasParts(s)
  {
    var t := if s != "" && s[0] == '-' then s[1..] else s;
    var sign := if s != "" && s[0] == '-' then "-" else "";
    var whole, fraction, exponent := UnsignedHasParts(t);
    assert s == sign + t;
    Joined(sign, whole, fraction, exponent);
    assert NumberParts(sign, whole, fraction, exponent) && s == sign + whole + fraction + exponent;
  }

  lemma PartsMakeNumber(sign: string, whole: string, fraction: string, exponent: string)
    requires NumberParts(sign, whole, fraction, exponent)
    ensures IsNumber(sign + whole + fraction + exponent)
  {
    var tail := fraction + exponent;
    var t := whole + tail;
    var s := sign + whole + fraction + exponent;
    assert s == sign + t;
    PartsMakeFraction(fraction, exponent);
    DigitsThen(whole, tail);
    if sign == "-" {
      assert s[1..] == t;
    } else {
      assert s == t;
    }
  }

  lemma {:induction false} DigitsAreWord(s: string)
    requires AllDigits(s)
    ensures IsWord(s)
  {
  }

  lemma PartsAreWords(sign: string, whole: string, fraction: string, exponent: string)
    requires NumberParts(sign, whole, fraction, exponent)
    ensures IsWord(sign + whole + fraction + exponent)
  {
    assert fraction != "" ==> fraction == ['.'] + fraction[1..];
    if exponent != "" {
      if exponent[1] == '+' || exponent[1] == '-' {
        assert exponent == exponent[..2] + exponent[2..];
      } else {
        assert exponent == exponent[..1] + exponent[1..];
      }
    }
  }

  lemma PartsMakeAtom(s: string)
    requires HasParts(s)
    ensures IsNumber(s) && IsWord(s)
  {
    var sign, whole, fraction, exponent :|
      NumberParts(sign, whole, fraction, exponent) && s == sign + whole + fraction + exponent;
    PartsMakeNumber(sign, whole, fraction, exponent);
    PartsAreWords(sign, whole, fraction, exponent);
  }

  lemma LiteralsAreWords()
    ensures IsWord("true") && IsWord("false") && IsWord("null") && IsWord("NaN") && IsWord("Infinity") && IsWord("-Infinity")
  {
  }

  /** Atoms are the six literals and the numbers of the grammar, all of them. */
  lemma AtomsAreExact(s: string)
    ensures IsAtom(s) <==> s in ["true", "false", "null", "NaN", "Infinity", "-Infinity"] || HasParts(s)
  {
    LiteralsAreWords();
    if IsNumber(s) {
      NumberHasParts(s);
    }
    if HasParts(s) {
      PartsMakeAtom(s);
    }
  }

  /** Atoms are literals and numbers; an object names no key twice. */
  predicate WellFormed(j: Json) {
    match j
    case Atom(text) => IsAtom(text)
    case Text(_) => true
    case Array(items) => WellFormedMembers(items, false)
    case Object(fields) => WellFormedMembers(fields, true)
  }

  predicate WellFormedMembers(m: Members, keyed: bool) {
    m.More? ==>
      WellFormed(m.value) && WellFormedMembers(m.rest, keyed) && if keyed then m.key !in Keys(m.rest) else m.key == ""
  }

  /** Any text is well-formed, an object exactly if its values are and no two of its keys are the same. */
  lemma ObjectsAreExact(key: string, value: Json, rest: Members, chars: string, other: string)
    ensures WellFormed(Text(chars)) && WellFormed(Object(End)) && WellFormed(Array(End))
    ensures other in Keys(More(key, value, rest)) <==> other == key || other in Keys(rest)
    ensures WellFormed(Object(More(key, value, rest))) <==> WellFormed(value) && WellFormed(Object(rest)) && key !in Keys(rest)
    ensures WellFormed(Array(More("", value, rest))) <==> WellFormed(value) && WellFormed(Array(rest))
  {
  }

  function Hex(n: nat): char
    requires n < 16
  {
    "0123456789abcdef"[n]
  }

  function Escape(c: char): string {
    if c == '"' then "\\\""
    else if c == '\\' then "\\\\"
    else if c == '\n' then "\\n"
    else if c == '\r' then "\\r"
    else if c == '\t' then "\\t"
    else if c == '\U{08}' then "\\b"
    else if c == '\U{0C}' then "\\f"
    else if c < ' ' then "\\u00" + [Hex(c as int / 16), Hex(c as int % 16)]
    else [c]
  }

  function Escaped(s: string): string {
    if s == "" then "" else Escape(s[0]) + Escaped(s[1..])
  }

  function Quoted(s: string): string {
    "\"" + Escaped(s) + "\""
  }

  function Indent(level: nat): string {
    if level == 0 then "\n" else Indent(level - 1) + "  "
  }

  function Render(j: Json, level: nat): string
    decreases j, 0
  {
    match j
    case Atom(text) => text
    case Text(chars) => Quoted(chars)
    case Array(items) => "[" + RenderInside(items, false, level) + "]"
    case Object(fields) => "{" + RenderInside(fields, true, level) + "}"
  }

  /** What stands between the brackets: nothing, or every member on a line of its own. */
  function RenderInside(m: Members, keyed: bool, level: nat): string
    decreases m, 2
  {
    if m.End? then "" else RenderMembers(m, keyed, level + 1) + Indent(level)
  }

  function RenderMembers(m: Members, keyed: bool, level: nat): string
    requires m.More?
    decreases m, 1
  {
    var first := Indent(level) + RenderMember(m, keyed, level);
    if m.rest.End? then first else first + ("," + RenderMembers(m.rest, keyed, level))
  }

  function RenderMember(m: Members, keyed: bool, level: nat): string
    requires m.More?
    decreases m, 0
  {
    if keyed then Quoted(m.key) + (": " + Render(m.value, level)) else Render(m.value, level)
  }

  /** A new line and two spaces for each level. */
  lemma {:induction false} IndentIsTwo(level: nat)
    ensures |Indent(level)| == 1 + 2 * level && Indent(level)[0] == '\n'
    ensures forall i :: 1 <= i < |Indent(level)| ==> Indent(level)[i] == ' '
  {
    if level == 0 {
    } else {
      IndentIsTwo(level - 1);
    }
  }

  /** Two items as they are written, and no items. */
  lemma WrittenItems(a: Json, b: Json, level: nat)
    ensures var two := Array(More("", a, More("", b, End)));
            Render(two, level)
            == "[" + (Indent(level + 1) + Render(a, level + 1) + ("," + (Indent(level + 1) + Render(b, level + 1))) + Indent(level)) + "]"
    ensures Render(Array(End), level) == "[]" && Render(Object(End), level) == "{}"
  {
    var last := More("", b, End);
    assert RenderMembers(last, false, level + 1) == Indent(level + 1) + Render(b, level + 1);
    var all := More("", a, last);
    assert RenderMember(all, false, level + 1) == Render(a, level + 1);
    assert RenderMembers(all, false, level + 1)
        == Indent(level + 1) + Render(a, level + 1) + ("," + RenderMembers(last, false, level + 1));
    assert RenderInside(all, false, level) == RenderMembers(all, false, level + 1) + Indent(level);
  }

  /** Two fields as they are written. */
  lemma WrittenFields(k: string, a: Json, l: string, b: Json, level: nat)
    ensures var two := Object(More(k, a, More(l, b, End))); var deeper := level + 1;
            Render(two, level)
            == "{" + (Indent(deeper) + (Quoted(k) + (": " + Render(a, deeper)))
                      + ("," + (Indent(deeper) + (Quoted(l) + (": " + Render(b, deeper))))) + Indent(level)) + "}"
  {
    var last, deeper := More(l, b, End), level + 1;
    assert RenderMembers(last, true, deeper) == Indent(deeper) + (Quoted(l) + (": " + Render(b, deeper)));
    var all := More(k, a, last);
    assert RenderMember(all, true, deeper) == Quoted(k) + (": " + Render(a, deeper));
    assert RenderMembers(all, true, deeper)
        == Indent(deeper) + (Quoted(k) + (": " + Render(a, deeper))) + ("," + RenderMembers(last, true, deeper));
    assert RenderInside(all, true, level) == RenderMembers(all, true, deeper) + Indent(level);
  }

  /** The value of a hexadecimal digit. */
  function DigitValue(c: char): int {
    if '0' <= c <= '9' then c as int - 48 else c as int - 87
  }

  /**
   Escaping by the codes of the characters: quote, backslash and the control characters below 32 are escaped, the
   five named ones by a letter and the others by four digits; nothing else is.
   */
  lemma EscapesByCode(c: char)
    ensures var n, e := c as int, Escape(c);
            match n
            case 34 => e == "\\\""
            case 92 => e == "\\\\"
            case 8 => e == "\\b"
            case 9 => e == "\\t"
            case 10 => e == "\\n"
            case 12 => e == "\\f"
            case 13 => e == "\\r"
            case _ =>
              if n < 32 then
                && |e| == 6 && e[..4] == "\\u00" && DigitValue(e[4]) * 16 + DigitValue(e[5]) == n
                && (forall i :: 4 <= i < 6 ==> '0' <= e[i] <= '9' || 'a' <= e[i] <= 'f')
              else e == [c]
  {
  }

  /** Reading from left to right: how deep in brackets, and whether inside a string or after a backslash in one. */
  datatype Scan = Scan(depth: int, inString: bool, escaped: bool)

  function Step(s: Scan, c: char): Scan {
    if s.inString then
      if s.escaped then Scan(s.depth, true, false)
      else if c == '\\' then Scan(s.depth, true, true)
      else if c == '"' then Scan(s.depth, false, false)
      else s
    else if c == '[' || c == '{' then Scan(s.depth + 1, false, false)
    else if c == ']' || c == '}' then Scan(s.depth - 1, false, false)
    else if c == '"' then Scan(s.depth, true, false)
    else s
  }

  function ScanAll(s: Scan, text: string): Scan
    decreases text
  {
    if text == "" then s else ScanAll(Step(s, text[0]), text[1..])
  }

  /** The depth never goes below `floor` on the way. */
  predicate Above(s: Scan, text: string, floor: int)
    decreases text
  {
    s.depth >= floor && (text == "" || Above(Step(s, text[0]), text[1..], floor))
  }

  /** Every bracket and every string is closed at the end. */
  predicate Closed(text: string) {
    ScanAll(Scan(0, false, false), text) == Scan(0, false, false)
  }

  /** Text that can stand anywhere between brackets: it closes what it opens and no more. */
  predicate Neutral(s: Scan, text: string) {
    ScanAll(s, text) == s && Above(s, text, s.depth)
  }

  lemma {:induction false} ScanTwo(s: Scan, a: string, b: string, floor: int)
    ensures ScanAll(s, a + b) == ScanAll(ScanAll(s, a), b)
    ensures Above(s, a, floor) && Above(ScanAll(s, a), b, floor) ==> Above(s, a + b, floor)
    decreases a
  {
    if a == "" {
      assert a + b == b;
    } else {
      assert (a + b)[1..] == a[1..] + b;
      ScanTwo(Step(s, a[0]), a[1..], b, floor);
    }
  }

  lemma {:induction false} NeutralTwo(s: Scan, a: string, b: string)
    requires Neutral(s, a) && Neutral(s, b)
    ensures Neutral(s, a + b)
  {
    ScanTwo(s, a, b, s.depth);
  }

  lemma {:induction false} PlainIsNeutral(s: Scan, text: string)
    requires !s.inString && forall i :: 0 <= i < |text| ==> !Structural(text[i])
    ensures Neutral(s, text)
  {
    if text == "" {
    } else {
      PlainIsNeutral(s, text[1..]);
    }
  }

  lemma {:induction false} EscapeIsNeutral(depth: int, c: char)
    ensures Neutral(Scan(depth, true, false), Escape(c))
  {
    var s, text := Scan(depth, true, false), Escape(c);
    if c < ' ' && |text| == 6 {
      LetterStays(s, text[5..]);
      LetterStays(s, text[4..]);
      LetterStays(s, text[3..]);
      LetterStays(s, text[2..]);
      assert Step(Step(s, text[0]), text[1]) == s;
      assert text[1..][1..] == text[2..];
    } else if |text| == 2 {
      PairStays(s, text[1]);
      assert text == ['\\', text[1]];
    }
  }

  lemma {:induction false} PairStays(s: Scan, c: char)
    requires s.inString && !s.escaped
    ensures Neutral(s, ['\\', c])
  {
    var s' := Step(s, '\\');
    assert ['\\', c][1..] == [c] && [c][1..] == "";
    assert Step(s', c) == s;
    assert ScanAll(s', [c]) == s && Above(s', [c], s.depth);
  }

  lemma {:induction false} LetterStays(s: Scan, text: string)
    requires s.inString && !s.escaped && text != "" && text[0] != '\\' && text[0] != '"'
    requires Neutral(s, text[1..])
    ensures Neutral(s, text)
  {
  }

  lemma {:induction false} EscapedIsNeutral(depth: int, text: string)
    ensures Neutral(Scan(depth, true, false), Escaped(text))
  {
    if text == "" {
    } else {
      EscapeIsNeutral(depth, text[0]);
      EscapedIsNeutral(depth, text[1..]);
      NeutralTwo(Scan(depth, true, false), Escape(text[0]), Escaped(text[1..]));
    }
  }

  lemma {:induction false} QuotedIsNeutral(s: Scan, text: string)
    requires !s.inString && !s.escaped
    ensures Neutral(s, Quoted(text))
  {
    var inside := Scan(s.depth, true, false);
    EscapedIsNeutral(s.depth, text);
    ScanTwo(inside, Escaped(text), "\"", s.depth);
    assert ScanAll(inside, "\"") == s && Above(inside, "\"", s.depth);
    assert Quoted(text)[1..] == Escaped(text) + "\"";
  }

  lemma {:induction false} IndentIsNeutral(s: Scan, level: nat)
    requires !s.inString
    ensures Neutral(s, Indent(level))
  {
    if level == 0 {
      PlainIsNeutral(s, "\n");
    } else {
      IndentIsNeutral(s, level - 1);
      PlainIsNeutral(s, "  ");
      NeutralTwo(s, Indent(level - 1), "  ");
    }
  }

  /** A bracket, neutral text and the closing bracket: neutral, and open until the very end. */
  lemma {:induction false} BracketsAreNeutral(depth: int, open: char, inside: string, close: char)
    requires open == '[' || open == '{'
    requires close == ']' || close == '}'
    requires Neutral(Scan(depth + 1, false, false), inside)
    ensures Neutral(Scan(depth, false, false), [open] + inside + [close])
    ensures forall k :: 1 <= k <= |inside| + 1 ==>
              ScanAll(Scan(depth, false, false), ([open] + inside + [close])[..k]).depth > depth
  {
    var s, deeper, text := Scan(depth, false, false), Scan(depth + 1, false, false), [open] + inside + [close];
    assert text[1..] == inside + [close];
    ScanTwo(deeper, inside, [close], depth);
    AboveLower(deeper, inside, depth + 1, depth);
    assert Above(deeper, [close], depth) && ScanAll(deeper, [close]) == s by {
      assert [close][1..] == "";
    }
    forall k | 1 <= k <= |inside| + 1 ensures ScanAll(s, text[..k]).depth > depth {
      assert text[..k][1..] == inside[..k - 1];
      AbovePrefix(deeper, inside, depth + 1, k - 1);
    }
  }

  lemma {:induction false} AboveLower(s: Scan, text: string, high: int, low: int)
    requires Above(s, text, high) && low <= high
    ensures Above(s, text, low)
    decreases text
  {
    if text == "" {
    } else {
      AboveLower(Step(s, text[0]), text[1..], high, low);
    }
  }

  lemma {:induction false} AbovePrefix(s: Scan, text: string, floor: int, k: nat)
    requires Above(s, text, floor) && k <= |text|
    ensures ScanAll(s, text[..k]).depth >= floor
    decreases k
  {
    if k == 0 {
    } else {
      assert text[..k][1..] == text[1..][..k - 1];
      AbovePrefix(Step(s, text[0]), text[1..], floor, k - 1);
    }
  }

  lemma {:induction false} RenderIsNeutral(j: Json, level: nat, depth: int)
    requires WellFormed(j)
    ensures Neutral(Scan(depth, false, false), Render(j, level))
    decreases j, 0
  {
    match j
    case Atom(text) => PlainIsNeutral(Scan(depth, false, false), text);
    case Text(chars) => QuotedIsNeutral(Scan(depth, false, false), chars);
    case Array(items) =>
      InsideIsNeutral(items, false, level, depth + 1);
      BracketsAreNeutral(depth, '[', RenderInside(items, false, level), ']');
    case Object(fields) =>
      InsideIsNeutral(fields, true, level, depth + 1);
      BracketsAreNeutral(depth, '{', RenderInside(fields, true, level), '}');
  }

  lemma {:induction false} InsideIsNeutral(m: Members, keyed: bool, level: nat, depth: int)
    requires WellFormedMembers(m, keyed)
    ensures Neutral(Scan(depth, false, false), RenderInside(m, keyed, level))
    decreases m, 1
  {
    if m.More? {
      MembersAreNeutral(m, keyed, level + 1, depth);
      IndentIsNeutral(Scan(depth, false, false), level);
      NeutralTwo(Scan(depth, false, false), RenderMembers(m, keyed, level + 1), Indent(level));
    }
  }

  lemma {:induction false} MembersAreNeutral(m: Members, keyed: bool, level: nat, depth: int)
    requires m.More? && WellFormedMembers(m, keyed)
    ensures Neutral(Scan(depth, false, false), RenderMembers(m, keyed, level))
    decreases m, 0
  {
    var s := Scan(depth, false, false);
    var member := RenderMember(m, keyed, level);
    RenderIsNeutral(m.value, level, depth);
    if keyed {
      QuotedIsNeutral(s, m.key);
      PlainIsNeutral(s, ": ");
      NeutralTwo(s, ": ", Render(m.value, level));
      NeutralTwo(s, Quoted(m.key), ": " + Render(m.value, level));
    }
    IndentIsNeutral(s, level);
    NeutralTwo(s, Indent(level), member);
    if m.rest.More? {
      MembersAreNeutral(m.rest, keyed, level, depth);
      PlainIsNeutral(s, ",");
      NeutralTwo(s, ",", RenderMembers(m.rest, keyed, level));
      NeutralTwo(s, Indent(level) + member, "," + RenderMembers(m.rest, keyed, level));
    }
  }

  function Opening(j: Json): char {
    if j.Array? then '[' else '{'
  }

  function Inside(j: Json): string
    requires j.Array? || j.Object?
  {
    if j.Array? then RenderInside(j.items, false, 0) else RenderInside(j.fields, true, 0)
  }

  lemma {:induction false} RenderedBrackets(j: Json)
    requires WellFormed(j) && (j.Array? || j.Object?)
    ensures Neutral(Scan(1, false, false), Inside(j))
    ensures Render(j, 0) == [Opening(j)] + Inside(j) + [if j.Array? then ']' else '}']
  {
    InsideIsNeutral(if j.Array? then j.items else j.fields, j.Object?, 0, 1);
  }

  /** An object or array closes with its last character and never before. */
  lemma {:induction false} CutOffIsOpen(j: Json, k: nat)
    requires WellFormed(j) && (j.Array? || j.Object?) && k <= |Render(j, 0)|
    ensures k > 0 ==> (Closed(Render(j, 0)[..k]) <==> k == |Render(j, 0)|)
  {
    RenderedBrackets(j);
    var close := if j.Array? then ']' else '}';
    BracketsAreNeutral(0, Opening(j), Inside(j), close);
    if k == |Render(j, 0)| {
      assert Render(j, 0)[..k] == Render(j, 0);
    }
  }

  // ---- A value's text with something behind it, from left to right ----

  /** What can stand behind a value: nothing, or no character of an atom. */
  predicate Ended(s: string) {
    s == "" || !AtomChar(s[0])
  }

  lemma {:induction false} Regroup(a: string, b: string, c: string)
    ensures (a + b) + c == a + (b + c)
  {
  }

  lemma {:induction false} NoFront(x: string)
    ensures "" + x == x
  {
  }

  lemma {:induction false} EscapedStarts(s: string, x: string)
    ensures s == "" ==> Escaped(s) + x == x
    ensures s != "" ==> Escaped(s) + x == Escape(s[0]) + (Escaped(s[1..]) + x)
    ensures s != "" ==> (Escaped(s) + x)[0] != '"'
  {
    if s == "" {
      NoFront(x);
    } else {
      Regroup(Escape(s[0]), Escaped(s[1..]), x);
      assert (Escape(s[0]) + (Escaped(s[1..]) + x))[0] == Escape(s[0])[0];
    }
  }

  lemma {:induction false} QuotedThen(s: string, x: string)
    ensures Quoted(s) + x == "\"" + (Escaped(s) + ("\"" + x))
  {
    Regroup("\"" + Escaped(s), "\"", x);
    Regroup("\"", Escaped(s), "\"" + x);
  }

  lemma {:induction false} FirstChar(j: Json, level: nat, x: string)
    requires WellFormed(j)
    ensures Render(j, level) != ""
    ensures var c := (Render(j, level) + x)[0];
            match j
            case Atom(_) => AtomChar(c)
            case Text(_) => c == '"'
            case Array(_) => c == '['
            case Object(_) => c == '{'
  {
  }

  lemma {:induction false} IndentStarts(level: nat)
    ensures Indent(level) != "" && Indent(level)[0] == '\n'
  {
    if level == 0 {
    } else {
      IndentStarts(level - 1);
    }
  }

  lemma {:induction false} BracketsThen(open: string, inside: string, close: string, x: string)
    ensures open + inside + close + x == open + (inside + (close + x))
  {
    Regroup(open + inside, close, x);
    Regroup(open, inside, close + x);
  }

  lemma {:induction false} InsideStarts(m: Members, keyed: bool, level: nat, x: string)
    ensures m.End? ==> RenderInside(m, keyed, level) + x == x
    ensures m.More? ==> RenderInside(m, keyed, level) + x == RenderMembers(m, keyed, level + 1) + (Indent(level) + x)
    ensures m.More? ==> (RenderInside(m, keyed, level) + x)[0] == '\n'
  {
    if m.End? {
      NoFront(x);
    } else {
      Regroup(RenderMembers(m, keyed, level + 1), Indent(level), x);
      MembersThen(m, keyed, level + 1, Indent(level) + x);
      IndentStarts(level + 1);
    }
  }

  /** What stands behind the first member when `x` stands behind them all. */
  function BehindFirst(m: Members, keyed: bool, level: nat, x: string): string
    requires m.More?
  {
    if m.rest.End? then x else "," + (RenderMembers(m.rest, keyed, level) + x)
  }

  lemma {:induction false} MembersThen(m: Members, keyed: bool, level: nat, x: string)
    requires m.More?
    ensures RenderMembers(m, keyed, level) + x
            == Indent(level) + (RenderMember(m, keyed, level) + BehindFirst(m, keyed, level, x))
  {
    var first := Indent(level) + RenderMember(m, keyed, level);
    if m.rest.More? {
      var others := RenderMembers(m.rest, keyed, level);
      Regroup(first, "," + others, x);
      Regroup(",", others, x);
    }
    Regroup(Indent(level), RenderMember(m, keyed, level), BehindFirst(m, keyed, level, x));
  }
}
