/**
 What `json.loads` makes of a text, and that it reads back whatever `json.dumps` writes and accepts
 nothing with an open bracket or string.
 */
module JsonParser {

  import opened JsonText
  import opened JsonFile

  /** A value read from the front of a text, with the text behind it. */
  datatype Got<T> = Fail | Got(value: T, rest: string)

  predicate Blank(c: char) {
    c == ' ' || c == '\t' || c == '\n' || c == '\r'
  }

  function Skip(s: string): (rest: string)
    ensures |rest| <= |s|
  {
    if s != "" && Blank(s[0]) then Skip(s[1..]) else s
  }

  predicate Starts(s: string, c: char) {
    s != "" && s[0] == c
  }

  /** The longest word at the front of a text. */
  function Word(s: string): (word: string)
    ensures word <= s
  {
    if s != "" && AtomChar(s[0]) then [s[0]] + Word(s[1..]) else ""
  }

  predicate IsHex(c: char) {
    '0' <= c <= '9' || 'a' <= c <= 'f' || 'A' <= c <= 'F'
  }

  function HexValue(c: char): (n: nat)
    requires IsHex(c)
    ensures n < 16
  {
    if c <= '9' then c as int - '0' as int
    else if c <= 'F' then c as int - 'A' as int + 10
    else c as int - 'a' as int + 10
  }

  /** The number of the four hexadecimal digits of a `\u` escape. */
  function Code(s: string): nat
    requires |s| == 4 && forall i :: 0 <= i < 4 ==> IsHex(s[i])
  {
    ((HexValue(s[0]) * 16 + HexValue(s[1])) * 16 + HexValue(s[2])) * 16 + HexValue(s[3])
  }

  predicate IsCode(s: string) {
    |s| == 4 && (forall i :: 0 <= i < 4 ==> IsHex(s[i])) && (Code(s) < 0xD800 || Code(s) >= 0xE000)
  }

  predicate Short(c: char) {
    c in "\"\\/bfnrt"
  }

  function Unescaped(c: char): char {
    if c == 'b' then '\U{08}'
    else if c == 'f' then '\U{0C}'
    else if c == 'n' then '\n'
    else if c == 'r' then '\r'
    else if c == 't' then '\t'
    else c
  }

  function WithFront(c: char, got: Got<string>): Got<string> {
    if got.Fail? then Fail else Got([c] + got.value, got.rest)
  }

  /** A string behind its opening quote. */
  function ReadChars(s: string): (got: Got<string>)
    ensures got.Got? ==> |got.rest| < |s|
  {
    if s == "" then Fail
    else if s[0] == '"' then Got("", s[1..])
    else if s[0] == '\\' then
      if |s| >= 2 && Short(s[1]) then WithFront(Unescaped(s[1]), ReadChars(s[2..]))
      else if |s| >= 6 && s[1] == 'u' && IsCode(s[2..6]) then WithFront(Code(s[2..6]) as char, ReadChars(s[6..]))
      else Fail
    else if s[0] < ' ' then Fail
    else WithFront(s[0], ReadChars(s[1..]))
  }

  function ReadAtom(s: string): (got: Got<Json>)
    ensures got.Got? ==> |got.rest| < |s|
  {
    var word := Word(s);
    if IsAtom(word) && word != "" then Got(Atom(word), s[|word|..]) else Fail
  }

  function Close(keyed: bool): char {
    if keyed then '}' else ']'
  }

  function Dropped(m: Members, key: string): Members {
    if m.End? then End
    else if m.key == key then Dropped(m.rest, key)
    else More(m.key, m.value, Dropped(m.rest, key))
  }

  function LastOf(m: Members, key: string): Json
    requires key in Keys(m)
  {
    if key in Keys(m.rest) then LastOf(m.rest, key) else m.value
  }

  /** An object keeps the place of a key's first member and the value of its last. */
  function Joined(key: string, value: Json, m: Members, keyed: bool): Members {
    if keyed && key in Keys(m) then More(key, LastOf(m, key), Dropped(m, key)) else More(key, value, m)
  }

  function ReadValue(s: string): (got: Got<Json>)
    ensures got.Got? ==> |got.rest| < |s|
    decreases |s|, 0
  {
    if Starts(s, '"') then
      var got := ReadChars(s[1..]);
      if got.Got? then Got(Text(got.value), got.rest) else Fail
    else if Starts(s, '[') then
      var got := ReadInside(s[1..], false);
      if got.Got? then Got(Array(got.value), got.rest) else Fail
    else if Starts(s, '{') then
      var got := ReadInside(s[1..], true);
      if got.Got? then Got(Object(got.value), got.rest) else Fail
    else ReadAtom(s)
  }

  /** The members behind an opening bracket, with the closing one. */
  function ReadInside(s: string, keyed: bool): (got: Got<Members>)
    ensures got.Got? ==> |got.rest| < |s|
    decreases |s|, 3
  {
    var t := Skip(s);
    if Starts(t, Close(keyed)) then Got(End, t[1..]) else ReadMembers(t, keyed)
  }

  function ReadMembers(s: string, keyed: bool): (got: Got<Members>)
    ensures got.Got? ==> |got.rest| < |s|
    decreases |s|, 2
  {
    var first := ReadMember(s, keyed);
    if first.Fail? then Fail
    else
      var (key, value) := first.value;
      var t := Skip(first.rest);
      if Starts(t, Close(keyed)) then Got(More(key, value, End), t[1..])
      else if Starts(t, ',') then
        var others := ReadMembers(Skip(t[1..]), keyed);
        if others.Got? then Got(Joined(key, value, others.value, keyed), others.rest) else Fail
      else Fail
  }

  function ReadMember(s: string, keyed: bool): (got: Got<(string, Json)>)
    ensures got.Got? ==> |got.rest| < |s|
    decreases |s|, 1
  {
    if keyed then
      var key := if Starts(s, '"') then ReadChars(s[1..]) else Fail;
      if key.Got? && Starts(Skip(key.rest), ':') then
        WithKey(key.value, ReadValue(Skip(Skip(key.rest)[1..])))
      else Fail
    else WithKey("", ReadValue(s))
  }

  function WithKey(key: string, got: Got<Json>): Got<(string, Json)> {
    if got.Got? then Got((key, got.value), got.rest) else Fail
  }

  /** The types a caller can ask for. */
  datatype Expected = Anything | List | Dictionary

  predicate Fits(j: Json, expected: Expected) {
    match expected
    case Anything => true
    case List => j.Array?
    case Dictionary => j.Object?
  }

  /** One value, with white space around it and nothing else, of the type asked for. */
  function Parse(text: string, expected: Expected): Parsed {
    var got := ReadValue(Skip(text));
    if got.Got? && Skip(got.rest) == "" && Fits(got.value, expected) then Value(got.value) else Unusable
  }

  // ---- What is accepted is closed ----

  function Outside(depth: int): Scan {
    Scan(depth, false, false)
  }

  lemma {:induction false} SkipScans(depth: int, s: string)
    ensures ScanAll(Outside(depth), s) == ScanAll(Outside(depth), Skip(s))
  {
    if s != "" && Blank(s[0]) {
      SkipScans(depth, s[1..]);
    }
  }

  lemma {:induction false} WordScans(depth: int, s: string)
    ensures ScanAll(Outside(depth), s) == ScanAll(Outside(depth), s[|Word(s)|..])
  {
    if s != "" && AtomChar(s[0]) {
      WordScans(depth, s[1..]);
      assert s[1..][|Word(s[1..])|..] == s[|Word(s)|..];
    }
  }

  /** Characters within a string, none of them special. */
  lemma {:induction false} LettersScan(depth: int, s: string, n: nat)
    requires n <= |s| && forall i :: 0 <= i < n ==> s[i] != '"' && s[i] != '\\'
    ensures ScanAll(Scan(depth, true, false), s) == ScanAll(Scan(depth, true, false), s[n..])
  {
    if n == 0 {
    } else {
      LettersScan(depth, s[1..], n - 1);
      assert s[1..][n - 1..] == s[n..];
    }
  }

  lemma {:induction false} PairScans(depth: int, s: string)
    requires |s| >= 2 && s[0] == '\\'
    ensures ScanAll(Scan(depth, true, false), s) == ScanAll(Scan(depth, true, false), s[2..])
  {
    assert s[1..][1..] == s[2..];
    assert ScanAll(Scan(depth, true, true), s[1..]) == ScanAll(Scan(depth, true, false), s[2..]);
  }

  lemma {:induction false} CharsScan(depth: int, s: string)
    requires ReadChars(s).Got?
    ensures ScanAll(Scan(depth, true, false), s) == ScanAll(Outside(depth), ReadChars(s).rest)
  {
    if s[0] == '"' {
    } else if s[0] == '\\' {
      PairScans(depth, s);
      if Short(s[1]) {
        CharsScan(depth, s[2..]);
      } else {
        CodeScans(depth, s[2..]);
        assert s[2..][4..] == s[6..];
        CharsScan(depth, s[6..]);
      }
    } else {
      CharsScan(depth, s[1..]);
    }
  }

  lemma {:induction false} CodeScans(depth: int, s: string)
    requires |s| >= 4 && IsCode(s[..4])
    ensures ScanAll(Scan(depth, true, false), s) == ScanAll(Scan(depth, true, false), s[4..])
  {
    forall i | 0 <= i < 4 ensures s[i] != '"' && s[i] != '\\' {
      assert IsHex(s[..4][i]);
    }
    LettersScan(depth, s, 4);
  }

  lemma {:induction false} ValueScans(depth: int, s: string)
    requires ReadValue(s).Got?
    ensures ScanAll(Outside(depth), s) == ScanAll(Outside(depth), ReadValue(s).rest)
    decreases |s|, 0
  {
    if Starts(s, '"') {
      CharsScan(depth, s[1..]);
    } else if Starts(s, '[') {
      InsideScans(depth + 1, s[1..], false);
    } else if Starts(s, '{') {
      InsideScans(depth + 1, s[1..], true);
    } else {
      WordScans(depth, s);
    }
  }

  lemma {:induction false} InsideScans(depth: int, s: string, keyed: bool)
    requires ReadInside(s, keyed).Got?
    ensures ScanAll(Outside(depth), s) == ScanAll(Outside(depth - 1), ReadInside(s, keyed).rest)
    decreases |s|, 3
  {
    SkipScans(depth, s);
    if !Starts(Skip(s), Close(keyed)) {
      MembersScan(depth, Skip(s), keyed);
    }
  }

  lemma {:induction false} MembersScan(depth: int, s: string, keyed: bool)
    requires ReadMembers(s, keyed).Got?
    ensures ScanAll(Outside(depth), s) == ScanAll(Outside(depth - 1), ReadMembers(s, keyed).rest)
    decreases |s|, 2
  {
    MemberScans(depth, s, keyed);
    var t := Skip(ReadMember(s, keyed).rest);
    SkipScans(depth, ReadMember(s, keyed).rest);
    if !Starts(t, Close(keyed)) {
      SkipScans(depth, t[1..]);
      MembersScan(depth, Skip(t[1..]), keyed);
    }
  }

  lemma {:induction false} MemberScans(depth: int, s: string, keyed: bool)
    requires ReadMember(s, keyed).Got?
    ensures ScanAll(Outside(depth), s) == ScanAll(Outside(depth), ReadMember(s, keyed).rest)
    decreases |s|, 1
  {
    if keyed {
      CharsScan(depth, s[1..]);
      var t := ReadChars(s[1..]).rest;
      SkipScans(depth, t);
      SkipScans(depth, Skip(t)[1..]);
      ValueScans(depth, Skip(Skip(t)[1..]));
    } else {
      ValueScans(depth, s);
    }
  }

  /** No text with an open bracket or string is accepted. */
  lemma {:induction false} AcceptedIsClosed(text: string, expected: Expected)
    requires Parse(text, expected) != Unusable
    ensures Closed(text)
  {
    SkipScans(0, text);
    ValueScans(0, Skip(text));
    SkipScans(0, ReadValue(Skip(text)).rest);
  }

  // ---- What is written is read back ----

  lemma {:induction false} SkipIndent(level: nat, x: string)
    ensures Skip(Indent(level) + x) == Skip(x)
  {
    if level == 0 {
      assert ("\n" + x)[1..] == x;
    } else {
      Regroup(Indent(level - 1), "  ", x);
      SkipIndent(level - 1, "  " + x);
      assert ("  " + x)[1..] == " " + x && (" " + x)[1..] == x;
    }
  }

  lemma {:induction false} WordOf(s: string, x: string)
    requires IsWord(s) && Ended(x)
    ensures Word(s + x) == s && (s + x)[|s|..] == x
  {
    if s == "" {
      NoFront(x);
    } else {
      assert (s + x)[1..] == s[1..] + x;
      WordOf(s[1..], x);
    }
  }

  lemma {:induction false} ReadsEscape(c: char, x: string)
    ensures ReadChars(Escape(c) + x) == WithFront(c, ReadChars(x))
  {
    var e := Escape(c);
    assert (e + x)[..|e|] == e && (e + x)[|e|..] == x;
    if |e| == 6 {
      ReadsCode(c);
      assert (e + x)[2..6] == e[2..6];
    }
  }

  lemma {:induction false} ReadsCode(c: char)
    requires |Escape(c)| == 6
    ensures IsCode(Escape(c)[2..6]) && Code(Escape(c)[2..6]) == c as int
  {
    var h := Escape(c)[2..6];
    assert h == ['0', '0', Hex(c as int / 16), Hex(c as int % 16)];
    HexReads(c as int / 16);
    HexReads(c as int % 16);
  }

  lemma {:induction false} HexReads(n: nat)
    requires n < 16
    ensures IsHex(Hex(n)) && HexValue(Hex(n)) == n
  {
  }

  lemma {:induction false} ReadsChars(s: string, x: string)
    ensures ReadChars(Escaped(s) + ("\"" + x)) == Got(s, x)
  {
    var behind := "\"" + x;
    EscapedStarts(s, behind);
    if s == "" {
      assert behind[1..] == x;
    } else {
      ReadsEscape(s[0], Escaped(s[1..]) + behind);
      ReadsChars(s[1..], x);
      assert s == [s[0]] + s[1..];
    }
  }

  lemma {:induction false} ReadsQuoted(s: string, x: string)
    ensures Starts(Quoted(s) + x, '"') && ReadChars((Quoted(s) + x)[1..]) == Got(s, x)
  {
    QuotedThen(s, x);
    ReadsChars(s, x);
    assert (Quoted(s) + x)[1..] == Escaped(s) + ("\"" + x);
  }

  /** A written value is read from the front of any text in which it ends. */
  lemma {:induction false} ReadsValue(j: Json, level: nat, x: string)
    requires WellFormed(j) && Ended(x)
    ensures ReadValue(Render(j, level) + x) == Got(j, x)
    decreases j, 0
  {
    FirstChar(j, level, x);
    match j
    case Atom(text) => WordOf(text, x);
    case Text(chars) => ReadsQuoted(chars, x);
    case Array(items) =>
      ReadsInside(items, false, level, x);
      BracketsThen("[", RenderInside(items, false, level), "]", x);
      assert (Render(j, level) + x)[1..] == RenderInside(items, false, level) + ("]" + x);
    case Object(fields) =>
      ReadsInside(fields, true, level, x);
      BracketsThen("{", RenderInside(fields, true, level), "}", x);
      assert (Render(j, level) + x)[1..] == RenderInside(fields, true, level) + ("}" + x);
  }

  lemma {:induction false} ReadsInside(m: Members, keyed: bool, level: nat, x: string)
    requires WellFormedMembers(m, keyed)
    ensures ReadInside(RenderInside(m, keyed, level) + ([Close(keyed)] + x), keyed) == Got(m, x)
    decreases m, 3
  {
    var behind := [Close(keyed)] + x;
    InsideStarts(m, keyed, level, behind);
    if m.End? {
      assert behind[1..] == x;
    } else {
      var tail := Indent(level) + behind;
      MembersThen(m, keyed, level + 1, tail);
      IndentStarts(level);
      MemberStarts(m, keyed, level + 1, BehindFirst(m, keyed, level + 1, tail));
      SkipIndent(level + 1, RenderMember(m, keyed, level + 1) + BehindFirst(m, keyed, level + 1, tail));
      ReadsMembers(m, keyed, level + 1, level, x);
    }
  }

  /** A member starts with no white space and no closing bracket. */
  lemma {:induction false} MemberStarts(m: Members, keyed: bool, level: nat, x: string)
    requires m.More? && WellFormedMembers(m, keyed)
    ensures var text := RenderMember(m, keyed, level) + x;
            text != "" && !Blank(text[0]) && text[0] != Close(keyed)
  {
    if !keyed {
      FirstChar(m.value, level, x);
    }
  }

  /** The last member, with white space and the closing bracket behind it. */
  lemma {:induction false} ReadsLast(s: string, key: string, value: Json, behind: string, keyed: bool, x: string)
    requires ReadMember(s, keyed) == Got((key, value), behind) && Skip(behind) == [Close(keyed)] + x
    ensures ReadMembers(s, keyed) == Got(More(key, value, End), x)
  {
    assert ([Close(keyed)] + x)[1..] == x;
  }

  /** A member with a comma, white space and further members behind it. */
  lemma {:induction false} ReadsNext(s: string, key: string, value: Json, behind: string, keyed: bool, m: Members,
                                     x: string)
    requires ReadMember(s, keyed) == Got((key, value), "," + behind)
    requires ReadMembers(Skip(behind), keyed) == Got(m, x)
    requires keyed ==> key !in Keys(m)
    ensures ReadMembers(s, keyed) == Got(More(key, value, m), x)
  {
    assert ("," + behind)[1..] == behind;
  }

  lemma {:induction false} ReadsMembers(m: Members, keyed: bool, level: nat, outer: nat, x: string)
    requires m.More? && WellFormedMembers(m, keyed)
    ensures var tail := Indent(outer) + ([Close(keyed)] + x);
            ReadMembers(RenderMember(m, keyed, level) + BehindFirst(m, keyed, level, tail), keyed) == Got(m, x)
    decreases m, 2
  {
    var tail := Indent(outer) + ([Close(keyed)] + x);
    var text := RenderMember(m, keyed, level) + BehindFirst(m, keyed, level, tail);
    IndentStarts(outer);
    ReadsMember(m, keyed, level, BehindFirst(m, keyed, level, tail));
    if m.rest.End? {
      SkipIndent(outer, [Close(keyed)] + x);
      ReadsLast(text, m.key, m.value, tail, keyed, x);
    } else {
      var behind := BehindFirst(m.rest, keyed, level, tail);
      MembersThen(m.rest, keyed, level, tail);
      MemberStarts(m.rest, keyed, level, behind);
      SkipIndent(level, RenderMember(m.rest, keyed, level) + behind);
      ReadsMembers(m.rest, keyed, level, outer, x);
      ReadsNext(text, m.key, m.value, RenderMembers(m.rest, keyed, level) + tail, keyed, m.rest, x);
    }
  }

  lemma {:induction false} ReadsKey(key: string, x: string)
    requires x != "" && !Blank(x[0])
    ensures ReadMember(Quoted(key) + (": " + x), true) == WithKey(key, ReadValue(x))
  {
    ReadsQuoted(key, ": " + x);
    assert (": " + x)[1..] == " " + x && (" " + x)[1..] == x;
    assert Skip(": " + x) == ": " + x && Skip(" " + x) == Skip(x) == x;
  }

  lemma {:induction false} ReadsMember(m: Members, keyed: bool, level: nat, x: string)
    requires m.More? && WellFormedMembers(m, keyed) && Ended(x)
    ensures ReadMember(RenderMember(m, keyed, level) + x, keyed) == Got((m.key, m.value), x)
    decreases m, 1
  {
    var value := Render(m.value, level);
    ReadsValue(m.value, level, x);
    if keyed {
      FirstChar(m.value, level, x);
      Regroup(Quoted(m.key), ": " + value, x);
      Regroup(": ", value, x);
      ReadsKey(m.key, value + x);
    }
  }

  /** Two values whose texts, with something behind them, are the same are the same value. */
  lemma {:induction false} OneValue(a: Json, b: Json, level: nat, x: string, y: string)
    requires WellFormed(a) && WellFormed(b) && Ended(x) && Ended(y)
    requires Render(a, level) + x == Render(b, level) + y
    ensures a == b && x == y
  {
    ReadsValue(a, level, x);
    ReadsValue(b, level, y);
  }

  /** A value's text, with white space behind it or not, is read back by callers that ask for its type. */
  lemma {:induction false} WrittenIsReadBack(j: Json, expected: Expected)
    requires WellFormed(j) && Fits(j, expected)
    ensures Parse(Content(j), expected) == Parse(Render(j, 0), expected) == Value(j)
  {
    ReadsValue(j, 0, "");
    ReadsValue(j, 0, "\n");
    FirstChar(j, 0, "");
    FirstChar(j, 0, "\n");
    assert Render(j, 0) + "" == Render(j, 0);
    assert Skip("\n") == "" by {
      assert "\n"[1..] == "";
    }
  }

  // ---- The data files of the service ----

  function Loader(expected: Expected): Parser {
    text => Parse(text, expected)
  }

  lemma {:induction false} LoaderIsStrict(expected: Expected)
    ensures Strict(Loader(expected))
  {
    forall text | Loader(expected)(text) != Unusable ensures Closed(text) {
      AcceptedIsClosed(text, expected);
    }
  }

  predicate Storable(j: Json, expected: Expected) {
    Container(j) && Fits(j, expected)
  }

  lemma {:induction false} LoaderReadsBack(j: Json, expected: Expected)
    requires Storable(j, expected)
    ensures ReadsBack(Loader(expected), j)
  {
    WrittenIsReadBack(j, expected);
  }

  /**
   Whatever containers of the type asked for were written and cut short before, a crash anywhere in the next
   write leaves a file that is read as the last completed value or as the one being written.
   */
  lemma {:induction false} FilesAreCrashSafe(expected: Expected, d: Disk, start: Json, attempts: seq<Attempt>,
                                             next: Json, crashed: Disk)
    requires Storable(start, expected) && Storable(next, expected) && Completed(d, start)
    requires forall a :: a in attempts ==> Storable(a.value, expected)
    requires AllPossible(Loader(expected), d, attempts)
    requires Interrupted(AfterAll(d, attempts), Content(next), crashed)
    ensures Reading(Loader(expected), crashed) in {Value(LastComplete(start, attempts)), Value(next)}
  {
    LoaderIsStrict(expected);
    LoaderReadsBack(start, expected);
    LoaderReadsBack(next, expected);
    forall a | a in attempts ensures ReadsBack(Loader(expected), a.value) {
      LoaderReadsBack(a.value, expected);
    }
    RunsAreCrashSafe(Loader(expected), d, start, attempts, next, crashed);
  }
}
