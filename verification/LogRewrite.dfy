/**
 Deleting listed entries and clearing out old ones: both read the file forwards and write what stays.
 */
module LogRewrite {

  import opened LogText
  import opened LogReaders
  import opened LogPaging
  import opened Sequences

  type Breaks = char -> bool

  /** Where a text file read line by line ends a line. */
  const UNIVERSAL: Breaks := c => c == '\n' || c == '\r'

  /** Where `splitlines` ends a line. */
  const SPLITLINES: Breaks := c =>
    c == '\n' || c == '\r' || c == '\U{0B}' || c == '\U{0C}' || c == '\U{1C}' || c == '\U{1D}' || c == '\U{1E}'
    || c == '\U{85}' || c == '\U{2028}' || c == '\U{2029}'

  /** The break characters by their codes: a file read by lines knows two, `splitlines` ten. */
  lemma BreakCodes(c: char)
    ensures UNIVERSAL(c) <==> c as int == 10 || c as int == 13
    ensures SPLITLINES(c) <==> c as int in {10, 11, 12, 13, 28, 29, 30, 133, 8232, 8233}
  {
  }

  /** The pieces between line breaks; a carriage return and the newline behind it are one break. */
  function Cut(breaks: Breaks, s: Text): (pieces: seq<Text>)
    ensures |pieces| >= 1
  {
    if s == "" then [""]
    else if |s| > 1 && s[0] == '\r' && s[1] == '\n' then [""] + Cut(breaks, s[2..])
    else
      var rest := Cut(breaks, s[1..]);
      if breaks(s[0]) then [""] + rest else [[s[0]] + rest[0]] + rest[1..]
  }

  function DropFinalBlank(pieces: seq<Text>): seq<Text> {
    if pieces != [] && pieces[|pieces| - 1] == "" then pieces[..|pieces| - 1] else pieces
  }

  /** The lines as the forward readers see them. */
  function ForwardLines(breaks: Breaks, s: Text): seq<Text> {
    DropFinalBlank(Cut(breaks, s))
  }

  predicate Ordinary(breaks: Breaks) {
    breaks('\n') && breaks('\r')
  }

  /** A break the backward readers know too. */
  predicate PlainBreak(s: Text, i: nat)
    requires i < |s|
  {
    s[i] == '\n' || (s[i] == '\r' && (i + 1 == |s| || s[i + 1] == '\n'))
  }

  predicate PlainBreaks(breaks: Breaks, s: Text) {
    forall i :: 0 <= i < |s| && breaks(s[i]) ==> PlainBreak(s, i)
  }

  function Size(pieces: seq<Text>): nat {
    if pieces == [] then 0 else |pieces[0]| + Size(pieces[1..])
  }

  function BreakCount(breaks: Breaks, s: Text): nat {
    if s == "" then 0 else (if breaks(s[0]) then 1 else 0) + BreakCount(breaks, s[1..])
  }

  function PlainCount(s: Text): nat {
    if s == "" then 0 else (if PlainBreak(s, 0) then 1 else 0) + PlainCount(s[1..])
  }

  lemma {:induction false} SizeThen(first: Text, rest: seq<Text>)
    ensures Size([first] + rest) == |first| + Size(rest)
  {
    assert ([first] + rest)[1..] == rest;
  }

  lemma {:induction false} SizeWithoutBlank(pieces: seq<Text>)
    ensures Size(DropFinalBlank(pieces)) == Size(pieces)
  {
    if |pieces| > 1 {
      SizeWithoutBlank(pieces[1..]);
      if pieces[|pieces| - 1] == "" {
        assert pieces[..|pieces| - 1] == [pieces[0]] + pieces[1..][..|pieces| - 2];
        SizeThen(pieces[0], pieces[1..][..|pieces| - 2]);
      }
    }
  }

  /** Cutting takes away exactly the break characters. */
  lemma {:induction false} CutSize(breaks: Breaks, s: Text)
    requires Ordinary(breaks)
    ensures Size(Cut(breaks, s)) + BreakCount(breaks, s) == |s|
  {
    if s == "" {
      assert Size([""]) == 0 by { SizeThen("", []); }
    } else if |s| > 1 && s[0] == '\r' && s[1] == '\n' {
      CutSize(breaks, s[2..]);
      assert s[1..][1..] == s[2..];
      SizeThen("", Cut(breaks, s[2..]));
    } else {
      CutSize(breaks, s[1..]);
      var rest := Cut(breaks, s[1..]);
      SizeThen("", rest);
      SizeThen([s[0]] + rest[0], rest[1..]);
    }
  }

  lemma {:induction false} FirstPieceBlank(s: Text)
    ensures Split(s)[0] == "" <==> s == "" || s[0] == '\n'
  {
  }

  lemma {:induction false} StrippedThen(first: Text, rest: seq<Text>)
    ensures Stripped([first] + rest) == [StripCR(first)] + Stripped(rest)
  {
  }

  /** The backward readers' lines lack exactly the plain breaks. */
  lemma {:induction false} SplitSize(s: Text)
    ensures Size(Stripped(Split(s))) + PlainCount(s) == |s|
  {
    if s == "" {
      SizeThen("", []);
      assert Stripped([""]) == [""] + [];
    } else {
      SplitSize(s[1..]);
      FirstPieceBlank(s[1..]);
      var rest := Split(s[1..]);
      StrippedThen("", rest);
      SizeThen("", Stripped(rest));
      var first := [s[0]] + rest[0];
      StrippedThen(first, rest[1..]);
      SizeThen(StripCR(first), Stripped(rest[1..]));
      assert rest == [rest[0]] + rest[1..];
      StrippedThen(rest[0], rest[1..]);
      SizeThen(StripCR(rest[0]), Stripped(rest[1..]));
      assert |first| > 1 ==> first[|first| - 1] == rest[0][|rest[0]| - 1];
    }
  }

  lemma {:induction false} PlainBreaksShift(breaks: Breaks, s: Text, k: nat)
    requires k <= |s|
    ensures PlainBreaks(breaks, s) ==> PlainBreaks(breaks, s[k..])
  {
    if PlainBreaks(breaks, s) {
      forall i | 0 <= i < |s[k..]| && breaks(s[k..][i]) ensures PlainBreak(s[k..], i) {
        assert PlainBreak(s, k + i);
      }
    }
  }

  lemma {:induction false} PlainCountBounded(breaks: Breaks, s: Text)
    requires Ordinary(breaks)
    ensures PlainCount(s) <= BreakCount(breaks, s)
    ensures PlainCount(s) == BreakCount(breaks, s) ==> PlainBreaks(breaks, s)
  {
    if s == "" {
    } else {
      PlainCountBounded(breaks, s[1..]);
      if PlainCount(s) == BreakCount(breaks, s) {
        forall i | 0 <= i < |s| && breaks(s[i]) ensures PlainBreak(s, i) {
          if i > 0 {
            assert PlainBreak(s[1..], i - 1);
          }
        }
      }
    }
  }

  predicate EndsWithReturn(s: Text) {
    s != "" && s[|s| - 1] == '\r'
  }

  lemma {:induction false} StrippedGrows(c: char, pieces: seq<Text>)
    requires pieces != [] && c != '\r'
    ensures var all := Stripped(pieces);
            Stripped([[c] + pieces[0]] + pieces[1..]) == [[c] + all[0]] + all[1..]
  {
    var first := pieces[0];
    assert first != "" ==> ([c] + first)[..|first|] == [c] + first[..|first| - 1];
    StrippedThen([c] + first, pieces[1..]);
    assert Stripped(pieces)[1..] == Stripped(pieces[1..]);
  }

  /** Both splittings, without their treatment of the end. */
  predicate CutsAlike(breaks: Breaks, s: Text) {
    Cut(breaks, s) == Stripped(Split(s)) + if EndsWithReturn(s) then [""] else []
  }

  lemma {:induction false} CutsAlikeAtReturn(breaks: Breaks, s: Text)
    requires breaks('\r') && s != "" && s[0] == '\r'
    requires |s| == 1 || (s[1] == '\n' && CutsAlike(breaks, s[2..]))
    ensures CutsAlike(breaks, s)
  {
    if |s| == 1 {
      assert s[1..] == "" && Cut(breaks, "") == [""];
      SplitOfPlain(s);
    } else {
      assert s[1..][1..] == s[2..];
      StrippedThen("\r", Split(s[2..]));
    }
  }

  lemma {:induction false} CutsAlikeAtLetter(breaks: Breaks, s: Text)
    requires breaks('\n') && s != "" && s[0] != '\r' && (breaks(s[0]) ==> s[0] == '\n')
    requires CutsAlike(breaks, s[1..])
    ensures CutsAlike(breaks, s)
  {
    var rest := Split(s[1..]);
    var tail: seq<Text> := if EndsWithReturn(s) then [""] else [];
    if s[0] == '\n' {
      StrippedThen("", rest);
      assert [""] + (Stripped(rest) + tail) == ([""] + Stripped(rest)) + tail;
    } else {
      StrippedGrows(s[0], rest);
      var all := Stripped(rest);
      assert (all + tail)[1..] == all[1..] + tail;
    }
  }

  lemma {:induction false} CutAgrees(breaks: Breaks, s: Text)
    requires Ordinary(breaks) && PlainBreaks(breaks, s)
    ensures CutsAlike(breaks, s)
  {
    if s == "" {
      assert Stripped([""]) == [""];
    } else if s[0] == '\r' {
      assert PlainBreak(s, 0);
      if |s| > 1 {
        PlainBreaksShift(breaks, s, 2);
        CutAgrees(breaks, s[2..]);
      }
      CutsAlikeAtReturn(breaks, s);
    } else {
      PlainBreaksShift(breaks, s, 1);
      CutAgrees(breaks, s[1..]);
      assert breaks(s[0]) ==> PlainBreak(s, 0);
      CutsAlikeAtLetter(breaks, s);
    }
  }

  /** Forwards and backwards give the same lines exactly for texts without other line breaks. */
  lemma {:induction false} ForwardAgrees(breaks: Breaks, s: Text)
    requires Ordinary(breaks)
    ensures ForwardLines(breaks, s) == Stripped(Lines(s)) <==> PlainBreaks(breaks, s)
  {
    if ForwardLines(breaks, s) == Stripped(Lines(s)) {
      SizesAgree(breaks, s);
      PlainCountBounded(breaks, s);
    }
    if PlainBreaks(breaks, s) {
      CutAgrees(breaks, s);
      LinesStripped(s);
    }
  }

  lemma {:induction false} LinesStripped(s: Text)
    ensures var all := Stripped(Split(s));
            Stripped(Lines(s)) == if EndsWithReturn(s) then all else DropFinalBlank(all)
  {
    if s == "" {
      assert Stripped([""]) == [""];
    } else {
      LastPiece(s);
      LastStripped(s);
      DropStripped(Split(s), EndsWithNewline(s), EndsWithReturn(s));
    }
  }

  lemma {:induction false} DropStripped(pieces: seq<Text>, newline: bool, carriage: bool)
    requires pieces != [] && !(newline && carriage)
    requires pieces[|pieces| - 1] == "" <==> newline
    requires !newline && StripCR(pieces[|pieces| - 1]) == "" ==> carriage
    ensures var all := Stripped(pieces);
            Stripped(if newline then pieces[..|pieces| - 1] else pieces)
            == if carriage then all else DropFinalBlank(all)
  {
  }

  lemma {:induction false} LastStripped(s: Text)
    requires s != ""
    ensures var p := Split(s);
            StripCR(p[|p| - 1]) == "" ==> EndsWithReturn(s) || p[|p| - 1] == ""
  {
    var p := Split(s);
    if p[|p| - 1] != "" {
      SplitIsFaithful(s);
      JoinEnds(p);
    }
  }

  lemma {:induction false} JoinEnds(pieces: seq<Text>)
    requires pieces != [] && pieces[|pieces| - 1] != ""
    ensures var last := pieces[|pieces| - 1]; var all := Join(pieces);
            all != "" && all[|all| - 1] == last[|last| - 1]
  {
    if |pieces| > 1 {
      JoinEnds(pieces[1..]);
    }
  }

  lemma {:induction false} SizesAgree(breaks: Breaks, s: Text)
    requires Ordinary(breaks) && ForwardLines(breaks, s) == Stripped(Lines(s))
    ensures BreakCount(breaks, s) == PlainCount(s)
  {
    CutSize(breaks, s);
    SizeWithoutBlank(Cut(breaks, s));
    SplitSize(s);
    LinesStripped(s);
    SizeWithoutBlank(Stripped(Split(s)));
  }

  /** The wanted entry of one line, if it is one. */
  function WantedEntry(codec: Codec, query: Query, line: Text, number: int): Parse {
    match codec.ParseLine((line, number))
    case Failed => Failed
    case Parsed(item) => if query.Wants(item) then Parsed(item) else Failed
  }

  /** The wanted entries of the first `n` lines, newest first. */
  function Newer(codec: Codec, query: Query, lines: seq<Text>, n: nat): seq<Item>
    requires n <= |lines|
  {
    if n == 0 then []
    else
      var older := Newer(codec, query, lines, n - 1);
      match WantedEntry(codec, query, lines[n - 1], n - 1)
      case Failed => older
      case Parsed(item) => [item] + older
  }

  lemma {:induction false} NewerSame(codec: Codec, query: Query, a: seq<Text>, b: seq<Text>, n: nat)
    requires n <= |a| && a <= b
    ensures Newer(codec, query, a, n) == Newer(codec, query, b, n)
  {
    if n == 0 {
    } else {
      NewerSame(codec, query, a, b, n - 1);
    }
  }

  lemma {:induction false} NewerThen(codec: Codec, query: Query, lines: seq<Text>, last: Text)
    ensures var older := Newer(codec, query, lines, |lines|);
            Newer(codec, query, lines + [last], |lines| + 1)
            == match WantedEntry(codec, query, last, |lines|)
               case Failed => older
               case Parsed(item) => [item] + older
  {
    NewerSame(codec, query, lines, lines + [last], |lines|);
  }

  /** The line read after `n` others is the forward line that many lines before the last, with its number. */
  predicate ReadsLine(read: seq<(Text, int)>, forward: seq<Text>, n: nat) {
    n < |read| == |forward| && read[n] == (forward[|forward| - 1 - n], |forward| - 1 - n)
  }

  /** One line further back. */
  lemma {:induction false} OneLineBack(codec: Codec, query: Query, read: seq<(Text, int)>, forward: seq<Text>, n: nat, k: nat)
    requires ReadsLine(read, forward, n) && n + k + 1 == |forward|
    ensures Matched(codec, query, read, n + 1) + Newer(codec, query, forward, k)
            == Matched(codec, query, read, n) + Newer(codec, query, forward, k + 1)
  {
    var entry := WantedEntry(codec, query, forward[k], k);
    if entry.Parsed? {
      Regroup(Matched(codec, query, read, n), entry.item, Newer(codec, query, forward, k));
    }
  }

  /** Reading on backwards from the end meets the forward reading's entries. */
  lemma {:induction false} BackwardsMeets(codec: Codec, query: Query, read: seq<(Text, int)>, forward: seq<Text>, n: nat,
                                          k: nat)
    requires n + k == |forward| == |read|
    requires forall j :: 0 <= j < |read| ==> ReadsLine(read, forward, j)
    ensures Matched(codec, query, read, n) + Newer(codec, query, forward, k) == Newer(codec, query, forward, n + k)
  {
    if n == 0 {
      NoItemsThen(Newer(codec, query, forward, k));
    } else {
      BackwardsMeets(codec, query, read, forward, n - 1, k + 1);
      OneLineBack(codec, query, read, forward, n - 1, k);
    }
  }

  lemma {:induction false} NoItemsThen(items: seq<Item>)
    ensures [] + items == items == items + []
  {
  }

  lemma {:induction false} Regroup(a: seq<Item>, b: Item, c: seq<Item>)
    ensures (a + [b]) + c == a + ([b] + c)
  {
  }

  lemma {:induction false} FromEndAt(lines: seq<Text>, n: nat)
    requires 1 <= n <= |lines|
    ensures FromEnd(lines, |lines| - 1)[n - 1] == (Stripped(lines)[|lines| - n], |lines| - n)
  {
  }

  /** The id shown for a line is the id a forward reading computes for it. */
  lemma {:induction false} ListingForwards(codec: Codec, query: Query, content: Text)
    ensures var lines := Stripped(Lines(content));
            Listing(codec, query, content) == Newer(codec, query, lines, |lines|)
  {
    var lines := Lines(content);
    var read, forward := FromEnd(lines, |lines| - 1), Stripped(lines);
    forall j | 0 <= j < |lines| ensures ReadsLine(read, forward, j) {
      FromEndAt(lines, j + 1);
    }
    BackwardsMeets(codec, query, read, forward, |lines|, 0);
    NoItemsThen(Matched(codec, query, read, |lines|));
  }

  type Doomed = Item -> bool

  /** What is written for the first `n` lines: a line that is no entry as it is, an entry with its id. */
  function Kept(codec: Codec, doomed: Doomed, lines: seq<Text>, n: nat): seq<Text>
    requires n <= |lines|
  {
    if n == 0 then []
    else
      var before := Kept(codec, doomed, lines, n - 1);
      match codec.ParseLine((lines[n - 1], n - 1))
      case Failed => before + [lines[n - 1]]
      case Parsed(item) => if doomed(item) then before else before + [codec.encode(item)]
  }

  /** How many entries of the first `n` lines go. */
  function RemovedCount(codec: Codec, doomed: Doomed, lines: seq<Text>, n: nat): nat
    requires n <= |lines|
  {
    if n == 0 then 0
    else
      var line := codec.ParseLine((lines[n - 1], n - 1));
      RemovedCount(codec, doomed, lines, n - 1) + if line.Parsed? && doomed(line.item) then 1 else 0
  }

  /** What JSON and the digest give: a blank line is no entry, entries read back, line breaks are escaped. */
  ghost predicate Sound(codec: Codec) {
    && codec.decode("") == Failed
    && (forall item: Item :: item.id != "" ==> codec.decode(codec.encode(item)) == Parsed(item))
    && (forall item: Item :: OneLine(codec.encode(item)))
    && (forall line: Text, n: int :: codec.digest(line, n) != "")
  }

  predicate OneLine(s: Text) {
    NoNewline(s) && '\r' !in s
  }

  /** The entry as shown: one without an id has the digest of its line. */
  function Shown(codec: Codec, item: Item, line: Text, number: nat): Item {
    if item.id != "" then item else Item(codec.digest(line, number), item.kind, item.rest)
  }

  /** The line is an entry that the query asks for, by its type and the narrower conditions. */
  predicate Shows(codec: Codec, query: Query, line: Text, number: nat) {
    match codec.decode(line)
    case Failed => false
    case Parsed(item) =>
      var shown := Shown(codec, item, line, number);
      !(query.kind != "" && shown.kind != query.kind) && !(query.precise && !query.narrow(shown))
  }

  /** `origin` leads every item to its line among the first `n`: from the last to the first, and to all that are asked for. */
  ghost predicate ListedFrom(codec: Codec, query: Query, lines: seq<Text>, n: nat, items: seq<Item>, origin: seq<nat>)
    requires n <= |lines|
  {
    && |origin| == |items|
    && (forall j :: 0 <= j < |origin| ==>
          && origin[j] < n && Shows(codec, query, lines[origin[j]], origin[j])
          && items[j] == Shown(codec, codec.decode(lines[origin[j]]).item, lines[origin[j]], origin[j]))
    && (forall i, j :: 0 <= i < j < |origin| ==> origin[i] > origin[j])
    && (forall k :: 0 <= k < n && Shows(codec, query, lines[k], k) ==> k in origin)
  }

  lemma ListedOneMore(codec: Codec, query: Query, lines: seq<Text>, n: nat, items: seq<Item>, item: Item, origin: seq<nat>)
    requires n < |lines| && ListedFrom(codec, query, lines, n, items, origin) && Shows(codec, query, lines[n], n)
    requires item == Shown(codec, codec.decode(lines[n]).item, lines[n], n)
    ensures ListedFrom(codec, query, lines, n + 1, [item] + items, [n] + origin)
  {
    var more := [n] + origin;
    forall k | 0 <= k < n + 1 && Shows(codec, query, lines[k], k) ensures k in more {
      assert k < n ==> k in origin;
    }
  }

  /** One line more in the listing, if it is an entry asked for. */
  lemma NewerOneMore(codec: Codec, query: Query, lines: seq<Text>, n: nat)
    requires n < |lines|
    ensures var older := Newer(codec, query, lines, n);
            Newer(codec, query, lines, n + 1)
            == if Shows(codec, query, lines[n], n) then [Shown(codec, codec.decode(lines[n]).item, lines[n], n)] + older
               else older
  {
  }

  lemma {:induction false} NewerIsListed(codec: Codec, query: Query, lines: seq<Text>, n: nat) returns (origin: seq<nat>)
    requires n <= |lines|
    ensures ListedFrom(codec, query, lines, n, Newer(codec, query, lines, n), origin)
  {
    if n == 0 {
      origin := [];
    } else {
      var k := n - 1;
      origin := NewerIsListed(codec, query, lines, k);
      NewerOneMore(codec, query, lines, k);
      if Shows(codec, query, lines[k], k) {
        ListedOneMore(codec, query, lines, k, Newer(codec, query, lines, k),
                      Shown(codec, codec.decode(lines[k]).item, lines[k], k), origin);
        origin := [k] + origin;
      }
    }
  }

  /** The listing is made of exactly the lines that are entries asked for, the last first. */
  lemma ListingIsExact(codec: Codec, query: Query, content: Text) returns (origin: seq<nat>)
    ensures var lines := Stripped(Lines(content));
            ListedFrom(codec, query, lines, |lines|, Listing(codec, query, content), origin)
  {
    ListingForwards(codec, query, content);
    var lines := Stripped(Lines(content));
    origin := NewerIsListed(codec, query, lines, |lines|);
  }

  lemma {:induction false} KeptStep(codec: Codec, query: Query, doomed: Doomed, lines: seq<Text>, n: nat, line: Text)
    requires Sound(codec) && n < |lines| && line == lines[n]
    requires var before := Kept(codec, doomed, lines, n);
             Newer(codec, query, before, |before|) == Without(Newer(codec, query, lines, n), doomed)
    ensures var kept := Kept(codec, doomed, lines, n + 1);
            Newer(codec, query, kept, |kept|) == Without(Newer(codec, query, lines, n + 1), doomed)
  {
    var before, older := Kept(codec, doomed, lines, n), Newer(codec, query, lines, n);
    match codec.ParseLine((line, n))
    case Failed => NewerThen(codec, query, before, line);
    case Parsed(item) =>
      WithoutThen(item, older, doomed);
      NewerThen(codec, query, before, codec.encode(item));
  }

  /** Rewriting keeps every other entry with its id, whatever its line number becomes. */
  lemma {:induction false} KeptEntries(codec: Codec, query: Query, doomed: Doomed, lines: seq<Text>, n: nat)
    requires Sound(codec) && n <= |lines|
    ensures var kept := Kept(codec, doomed, lines, n);
            Newer(codec, query, kept, |kept|) == Without(Newer(codec, query, lines, n), doomed)
  {
    if n == 0 {
    } else {
      KeptEntries(codec, query, doomed, lines, n - 1);
      KeptStep(codec, query, doomed, lines, n - 1, lines[n - 1]);
    }
  }

  // ---- Line by line ----

  /** The line is an entry that is to go. */
  predicate Goes(codec: Codec, doomed: Doomed, line: Text, number: nat) {
    var entry := codec.decode(line);
    entry.Parsed? && doomed(Shown(codec, entry.item, line, number))
  }

  /** What a line that stays is written as: itself if it is no entry, else the entry with its id. */
  predicate StaysAs(codec: Codec, line: Text, number: nat, written: Text) {
    match codec.decode(line)
    case Failed => written == line
    case Parsed(item) => written == codec.encode(Shown(codec, item, line, number))
  }

  /** `origin` leads every line of `after` to its line among the first `n` of `before`: in order, and to all that stay. */
  ghost predicate LeadsBack(codec: Codec, doomed: Doomed, before: seq<Text>, n: nat, after: seq<Text>, origin: seq<nat>)
    requires n <= |before|
  {
    && |origin| == |after|
    && (forall j :: 0 <= j < |origin| ==>
          && origin[j] < n && !Goes(codec, doomed, before[origin[j]], origin[j])
          && StaysAs(codec, before[origin[j]], origin[j], after[j]))
    && (forall i, j :: 0 <= i < j < |origin| ==> origin[i] < origin[j])
    && (forall k :: 0 <= k < n && !Goes(codec, doomed, before[k], k) ==> k in origin)
  }

  /** Exactly the lines that stay are carried over, in order. */
  ghost predicate Carried(codec: Codec, doomed: Doomed, before: seq<Text>, after: seq<Text>) {
    exists origin :: LeadsBack(codec, doomed, before, |before|, after, origin)
  }

  lemma LeadsOneMore(codec: Codec, doomed: Doomed, before: seq<Text>, n: nat, after: seq<Text>, written: Text, origin: seq<nat>)
    requires n < |before| && LeadsBack(codec, doomed, before, n, after, origin)
    requires !Goes(codec, doomed, before[n], n) && StaysAs(codec, before[n], n, written)
    ensures LeadsBack(codec, doomed, before, n + 1, after + [written], origin + [n])
  {
    var more := origin + [n];
    assert more[|origin|] == n;
    forall k | 0 <= k < n + 1 && !Goes(codec, doomed, before[k], k) ensures k in more {
      assert k < n ==> k in origin;
    }
  }

  /** Rewriting carries over every line that is no doomed entry, and nothing else. */
  lemma {:induction false} KeptLeadsBack(codec: Codec, doomed: Doomed, lines: seq<Text>, n: nat) returns (origin: seq<nat>)
    requires n <= |lines|
    ensures LeadsBack(codec, doomed, lines, n, Kept(codec, doomed, lines, n), origin)
  {
    if n == 0 {
      origin := [];
    } else {
      var before := Kept(codec, doomed, lines, n - 1);
      origin := KeptLeadsBack(codec, doomed, lines, n - 1);
      if !Goes(codec, doomed, lines[n - 1], n - 1) {
        var entry := codec.ParseLine((lines[n - 1], n - 1));
        var written := if entry.Parsed? then codec.encode(entry.item) else lines[n - 1];
        LeadsOneMore(codec, doomed, lines, n - 1, before, written, origin);
        origin := origin + [n - 1];
      }
    }
  }

  lemma KeptIsCarried(codec: Codec, doomed: Doomed, lines: seq<Text>)
    ensures Carried(codec, doomed, lines, Kept(codec, doomed, lines, |lines|))
  {
    var origin := KeptLeadsBack(codec, doomed, lines, |lines|);
  }

  lemma {:induction false} KeptLines(codec: Codec, doomed: Doomed, lines: seq<Text>, n: nat)
    requires Sound(codec) && n <= |lines|
    requires forall i :: 0 <= i < |lines| ==> OneLine(lines[i])
    ensures forall i :: 0 <= i < |Kept(codec, doomed, lines, n)| ==> OneLine(Kept(codec, doomed, lines, n)[i])
  {
    if n == 0 {
    } else {
      KeptLines(codec, doomed, lines, n - 1);
    }
  }

  lemma {:induction false} ForwardOneLine(breaks: Breaks, s: Text)
    requires Ordinary(breaks)
    ensures forall i :: 0 <= i < |Cut(breaks, s)| ==> OneLine(Cut(breaks, s)[i])
  {
    if s == "" {
    } else {
      if |s| > 1 {
        ForwardOneLine(breaks, s[2..]);
      }
      ForwardOneLine(breaks, s[1..]);
    }
  }

  /** The rewritten file: every line closed, and an empty file for no lines or one blank line. */
  function Written(lines: seq<Text>): Text {
    if lines == [] || lines == [""] then "" else Join(lines + [""])
  }

  lemma {:induction false} JoinCloses(lines: seq<Text>)
    requires lines != []
    ensures Join(lines + [""]) == Join(lines) + "\n"
  {
    if |lines| == 1 {
      assert (lines + [""])[1..] == [""];
    } else {
      JoinCloses(lines[1..]);
      assert (lines + [""])[1..] == lines[1..] + [""];
    }
  }

  lemma {:induction false} WrittenReads(lines: seq<Text>)
    requires forall i :: 0 <= i < |lines| ==> OneLine(lines[i])
    ensures Stripped(Lines(Written(lines))) == if lines == [""] then [] else lines
  {
    if lines != [] && lines != [""] {
      SplitOfJoin(lines + [""]);
      JoinCloses(lines);
      assert Lines(Written(lines)) == lines;
      assert Stripped(lines) == lines;
    }
  }

  /** The text after a rewriting that leaves out what is doomed. */
  function Rewritten(codec: Codec, doomed: Doomed, breaks: Breaks, content: Text): Text {
    var lines := ForwardLines(breaks, content);
    Written(Kept(codec, doomed, lines, |lines|))
  }

  /** The entries as a forward reading finds them, newest first. */
  function ForwardListing(codec: Codec, query: Query, breaks: Breaks, content: Text): seq<Item> {
    var lines := ForwardLines(breaks, content);
    Newer(codec, query, lines, |lines|)
  }

  /** The rewritten file lists what the forward reading found, without the doomed, in the same order: for any text. */
  lemma {:induction false} RewrittenLists(codec: Codec, query: Query, doomed: Doomed, breaks: Breaks, content: Text)
    requires Sound(codec) && Ordinary(breaks)
    ensures Listing(codec, query, Rewritten(codec, doomed, breaks, content))
            == Without(ForwardListing(codec, query, breaks, content), doomed)
  {
    var lines := ForwardLines(breaks, content);
    var kept := Kept(codec, doomed, lines, |lines|);
    ForwardOneLine(breaks, content);
    KeptLines(codec, doomed, lines, |lines|);
    WrittenReads(kept);
    ListingForwards(codec, query, Written(kept));
    KeptEntries(codec, query, doomed, lines, |lines|);
    if kept == [""] {
      assert Newer(codec, query, kept, 1) == Newer(codec, query, kept, 0);
    }
  }

  /** Texts with plain breaks alone are listed alike in both directions. */
  lemma {:induction false} PlainListsAlike(codec: Codec, query: Query, breaks: Breaks, content: Text)
    requires Ordinary(breaks) && PlainBreaks(breaks, content)
    ensures ForwardListing(codec, query, breaks, content) == Listing(codec, query, content)
  {
    ForwardAgrees(breaks, content);
    ListingForwards(codec, query, content);
  }

  /** A rewriting takes away exactly the listed entries that are doomed. */
  predicate Exact(codec: Codec, query: Query, doomed: Doomed, breaks: Breaks, content: Text) {
    Listing(codec, query, Rewritten(codec, doomed, breaks, content))
    == Without(Listing(codec, query, content), doomed)
  }

  /** The entries of the rewritten file are those of the old one without the doomed, in the same order. */
  lemma {:induction false} RewriteKeeps(codec: Codec, query: Query, doomed: Doomed, breaks: Breaks, content: Text)
    requires Sound(codec) && Ordinary(breaks) && PlainBreaks(breaks, content)
    ensures Exact(codec, query, doomed, breaks, content)
  {
    RewrittenLists(codec, query, doomed, breaks, content);
    PlainListsAlike(codec, query, breaks, content);
  }

  function MaxLength(items: seq<Item>): nat {
    if items == [] then 0
    else
      var rest := MaxLength(items[1..]);
      if |items[0].id| > rest then |items[0].id| else rest
  }

  function Dashes(n: nat): (s: Text)
    ensures |s| == n
  {
    seq(n, _ => '-')
  }

  /** An id longer than all in a list deletes nothing from it. */
  lemma {:induction false} LongIdDeletesNone(items: seq<Item>, n: nat)
    requires n > MaxLength(items)
    ensures Without(items, HasId({Dashes(n)})) == items
  {
    if items == [] {
    } else {
      LongIdDeletesNone(items[1..], n);
    }
  }

  predicate DeletesExactly(codec: Codec, query: Query, content: Text, ids: set<Text>) {
    Exact(codec, query, HasId(ids), SPLITLINES, content)
  }

  /** Every deletion takes away exactly the listed entries if and only if both directions list the same. */
  lemma {:induction false} DeletionIsExact(codec: Codec, query: Query, content: Text)
    requires Sound(codec)
    ensures (forall ids: set<Text> :: ids != {} ==> DeletesExactly(codec, query, content, ids))
            <==> ForwardListing(codec, query, SPLITLINES, content) == Listing(codec, query, content)
  {
    var forward, listed := ForwardListing(codec, query, SPLITLINES, content), Listing(codec, query, content);
    forall ids: set<Text>
      ensures DeletesExactly(codec, query, content, ids)
              <==> Without(forward, HasId(ids)) == Without(listed, HasId(ids))
    {
      RewrittenLists(codec, query, HasId(ids), SPLITLINES, content);
    }
    var long := 1 + MaxLength(forward) + MaxLength(listed);
    LongIdDeletesNone(forward, long);
    LongIdDeletesNone(listed, long);
    assert {Dashes(long)} != {};
    assert DeletesExactly(codec, query, content, {Dashes(long)}) <==> forward == listed;
  }

  lemma {:induction false} RemovedCounts(codec: Codec, query: Query, doomed: Doomed, lines: seq<Text>, n: nat)
    requires n <= |lines|
    ensures var entries := Newer(codec, query, lines, n); var left := Without(entries, doomed);
            && (RemovedCount(codec, doomed, lines, n) == 0 ==> left == entries)
            && (query.kind == "" && !query.precise ==>
                 |entries| == |left| + RemovedCount(codec, doomed, lines, n))
  {
    if n == 0 {
    } else {
      RemovedCounts(codec, query, doomed, lines, n - 1);
      var entry := codec.ParseLine((lines[n - 1], n - 1));
      if entry.Parsed? {
        WithoutThen(entry.item, Newer(codec, query, lines, n - 1), doomed);
      }
    }
  }

  function HasId(ids: set<Text>): Doomed {
    (item: Item) => item.id in ids
  }

  lemma {:induction false} JoinIsBlank(lines: seq<Text>)
    requires lines != []
    ensures Join(lines) == "" <==> lines == [""]
  {
  }

  /** Every line closed with a newline, however many there are. */
  function Closed(lines: seq<Text>): Text {
    if lines == [] then "" else Closed(lines[..|lines| - 1]) + lines[|lines| - 1] + "\n"
  }

  lemma {:induction false} ClosedThen(lines: seq<Text>, last: Text)
    ensures Closed(lines + [last]) == Closed(lines) + last + "\n"
  {
    assert (lines + [last])[..|lines|] == lines;
  }

  lemma {:induction false} JoinThen(lines: seq<Text>, last: Text)
    requires lines != []
    ensures Join(lines + [last]) == Join(lines) + "\n" + last
  {
    assert (lines + [last])[1..] == lines[1..] + [last];
    if |lines| == 1 {
      assert lines[1..] + [last] == [last];
    } else {
      JoinThen(lines[1..], last);
      assert lines[0] + "\n" + (Join(lines[1..]) + "\n" + last) == lines[0] + "\n" + Join(lines[1..]) + "\n" + last;
    }
  }

  lemma {:induction false} ClosedIsJoined(lines: seq<Text>)
    requires lines != []
    ensures Closed(lines) == Join(lines) + "\n"
  {
    var front, last := lines[..|lines| - 1], lines[|lines| - 1];
    assert lines == front + [last];
    if front == [] {
    } else {
      ClosedIsJoined(front);
      JoinThen(front, last);
    }
  }

  lemma {:induction false} WrittenIsClosed(lines: seq<Text>)
    ensures Written(lines) == if lines == [""] then "" else Closed(lines)
  {
    if lines != [] {
      ClosedIsJoined(lines);
      JoinCloses(lines);
    }
  }

  /** Writing back a list of kept lines. */
  method Rejoin(lines: seq<Text>) returns (content: Text)
    ensures content == Written(lines)
  {
    content := if lines == [] then "" else Join(lines);
    if lines != [] {
      JoinIsBlank(lines);
      JoinCloses(lines);
    }
    if content != "" {
      content := content + "\n";
    }
  }

  /**
   Deleting by id leaves the entries that a forward reading finds under other ids, in order and with their
   ids; in a file with no line breaks but plain ones these are the listed entries.
   */
  method Delete(codec: Codec, content: Text, ids: set<Text>, ghost query: Query)
    returns (after: Text, removed: nat)
    requires Sound(codec)
    ensures after == if ids == {} then content else Rewritten(codec, HasId(ids), SPLITLINES, content)
    ensures ids == {} ==> removed == 0
    ensures ids != {} ==>
              exists kept ::
                && Carried(codec, HasId(ids), ForwardLines(SPLITLINES, content), kept)
                && after == if kept == [""] then "" else Closed(kept)
    ensures ids != {} ==>
              Listing(codec, query, after)
              == Without(ForwardListing(codec, query, SPLITLINES, content), HasId(ids))
    ensures PlainBreaks(SPLITLINES, content) ==>
              Listing(codec, query, after) == Without(Listing(codec, query, content), HasId(ids))
    ensures PlainBreaks(SPLITLINES, content) && query.kind == "" && !query.precise ==>
              removed == |Listing(codec, query, content)| - |Listing(codec, query, after)|
    ensures ids != {} ==>
              var lines := ForwardLines(SPLITLINES, content);
              removed == RemovedCount(codec, HasId(ids), lines, |lines|)
  {
    if ids == {} {
      NoneHaveId(Listing(codec, query, content));
      return content, 0;
    }
    var lines := ForwardLines(SPLITLINES, content);
    var keptLines := [];
    removed := 0;
    for lineNumber := 0 to |lines|
      invariant keptLines == Kept(codec, HasId(ids), lines, lineNumber)
      invariant removed == RemovedCount(codec, HasId(ids), lines, lineNumber)
    {
      var rawLine := lines[lineNumber];
      var line := codec.ParseLine((rawLine, lineNumber));
      if line.Failed? {
        keptLines := keptLines + [rawLine];
      } else if line.item.id in ids {
        removed := removed + 1;
      } else {
        keptLines := keptLines + [codec.encode(line.item)];
      }
    }
    after := Rejoin(keptLines);
    WrittenIsClosed(keptLines);
    KeptIsCarried(codec, HasId(ids), lines);
    RewrittenLists(codec, query, HasId(ids), SPLITLINES, content);
    if PlainBreaks(SPLITLINES, content) {
      PlainListsAlike(codec, query, SPLITLINES, content);
      RemovedCounts(codec, query, HasId(ids), lines, |lines|);
    }
  }

  lemma {:induction false} NoneHaveId(items: seq<Item>)
    ensures Without(items, HasId({})) == items
  {
    if items == [] {
    } else {
      NoneHaveId(items[1..]);
    }
  }

  /** A file of closed lines reads like the one written by joining. */
  lemma {:induction false} ClosedReads(codec: Codec, query: Query, lines: seq<Text>)
    requires codec.decode("") == Failed
    ensures Listing(codec, query, Closed(lines)) == Listing(codec, query, Written(lines))
  {
    if lines != [] {
      ClosedIsJoined(lines);
      JoinCloses(lines);
      if lines == [""] {
        assert Closed(lines) == "\n";
        BlankFile(codec, query);
      }
    }
  }

  lemma {:induction false} BlankFile(codec: Codec, query: Query)
    requires codec.decode("") == Failed
    ensures Listing(codec, query, "\n") == Listing(codec, query, "") == []
  {
    BreakThen("");
    assert "\n" + "" == "\n";
    assert Lines("\n") == [""];
    ListingForwards(codec, query, "\n");
    assert Stripped([""]) == [""];
    assert Newer(codec, query, [""], 1) == Newer(codec, query, [""], 0);
  }

  datatype Stamp = NoStamp | At(second: int)

  /** Older than the retention time, which is at least one day; an entry without a readable time never is. */
  function Expired(timeOf: Item -> Stamp, now: int, retentionDays: int): Doomed {
    var days := if retentionDays < 1 then 1 else retentionDays;
    (item: Item) => timeOf(item).At? && timeOf(item).second < now - days * 86400
  }

  /** Older than every one of the retention days, and than one day in any case. */
  lemma ExpiredByDays(timeOf: Item -> Stamp, now: int, retentionDays: int, item: Item)
    ensures Expired(timeOf, now, retentionDays)(item)
       <==> timeOf(item).At? && (now - timeOf(item).second > 24 * 3600 * retentionDays && now - timeOf(item).second > 24 * 3600)
  {
  }

  /** The closed lines that stay: all carried over, and listed as the old ones without the doomed. */
  lemma CleanedUp(codec: Codec, query: Query, doomed: Doomed, lines: seq<Text>, content: Text)
    requires Sound(codec) && lines == ForwardLines(UNIVERSAL, content)
    ensures var kept := Kept(codec, doomed, lines, |lines|);
            && Carried(codec, doomed, lines, kept)
            && Listing(codec, query, Closed(kept)) == Without(ForwardListing(codec, query, UNIVERSAL, content), doomed)
  {
    KeptIsCarried(codec, doomed, lines);
    ClosedReads(codec, query, Kept(codec, doomed, lines, |lines|));
    RewrittenLists(codec, query, doomed, UNIVERSAL, content);
  }

  /** Clearing out expired entries; a dry run and a run that finds none leave the file alone. */
  method CleanupOld(codec: Codec, content: Text, timeOf: Item -> Stamp, now: int, retentionDays: int, dryRun: bool,
                    ghost query: Query)
    returns (after: Text, removed: nat, kept: nat)
    requires Sound(codec)
    ensures dryRun || removed == 0 ==> after == content
    ensures var lines := ForwardLines(UNIVERSAL, content);
            && removed == RemovedCount(codec, Expired(timeOf, now, retentionDays), lines, |lines|)
            && removed + kept == |lines|
    ensures !dryRun && removed > 0 ==>
              exists lines ::
                && Carried(codec, Expired(timeOf, now, retentionDays), ForwardLines(UNIVERSAL, content), lines)
                && after == Closed(lines)
    ensures !dryRun && removed > 0 ==>
              Listing(codec, query, after)
              == Without(ForwardListing(codec, query, UNIVERSAL, content), Expired(timeOf, now, retentionDays))
    ensures !dryRun && PlainBreaks(UNIVERSAL, content) ==>
              Listing(codec, query, after)
              == Without(Listing(codec, query, content), Expired(timeOf, now, retentionDays))
  {
    var doomed := Expired(timeOf, now, retentionDays);
    var days := if retentionDays < 1 then 1 else retentionDays;
    var cutoff := now - days * 86400;
    removed, kept := 0, 0;
    var output := "";
    var lines := ForwardLines(UNIVERSAL, content);
    for lineNumber := 0 to |lines|
      invariant removed == RemovedCount(codec, doomed, lines, lineNumber)
      invariant removed + kept == lineNumber
      invariant output == Closed(Kept(codec, doomed, lines, lineNumber))
    {
      var rawLine := lines[lineNumber];
      var line := codec.ParseLine((rawLine, lineNumber));
      if line.Parsed? && timeOf(line.item).At? && timeOf(line.item).second < cutoff {
        removed := removed + 1;
      } else {
        kept := kept + 1;
        var text := if line.Parsed? then codec.encode(line.item) else rawLine;
        ClosedThen(Kept(codec, doomed, lines, lineNumber), text);
        output := output + text + "\n";
      }
    }
    after := if !dryRun && removed > 0 then output else content;
    CleanedUp(codec, query, doomed, lines, content);
    if PlainBreaks(UNIVERSAL, content) {
      PlainListsAlike(codec, query, UNIVERSAL, content);
      RemovedCounts(codec, query, doomed, lines, |lines|);
    }
  }

  lemma {:induction false} CutAtBreak(breaks: Breaks, s: Text, end: char, rest: Text)
    requires Ordinary(breaks) && breaks(end) && end != '\r' && forall i :: 0 <= i < |s| ==> !breaks(s[i])
    ensures Cut(breaks, s + [end] + rest) == [s] + Cut(breaks, rest)
  {
    if s == "" {
      assert (s + [end] + rest)[1..] == rest;
    } else {
      CutAtBreak(breaks, s[1..], end, rest);
      assert (s + [end] + rest)[1..] == s[1..] + [end] + rest;
      assert s == [s[0]] + s[1..];
    }
  }

  predicate Unbroken(s: Text) {
    forall i :: 0 <= i < |s| ==> !SPLITLINES(s[i])
  }

  /** A line with U+2028 inside. */
  function Line2028(head: Text, tail: Text): Text {
    head + "\U{2028}" + tail
  }

  lemma {:induction false} HalvesThen(head: Text, tail: Text, rest: Text)
    ensures Line2028(head, tail) + "\n" + rest == head + "\U{2028}" + (tail + "\n" + rest)
  {
  }

  /** Deletion sees two lines where the readers see one. */
  lemma {:induction false} HalvesRead(head: Text, tail: Text, rest: Text)
    requires Unbroken(head) && Unbroken(tail)
    ensures var content := Line2028(head, tail) + "\n" + rest;
            && Cut(SPLITLINES, content) == [head, tail] + Cut(SPLITLINES, rest)
            && Split(content) == [Line2028(head, tail)] + Split(rest)
  {
    var behind := tail + "\n" + rest;
    HalvesThen(head, tail, rest);
    CutAtBreak(SPLITLINES, tail, '\n', rest);
    CutAtBreak(SPLITLINES, head, '\U{2028}', behind);
    assert [head] + ([tail] + Cut(SPLITLINES, rest)) == [head, tail] + Cut(SPLITLINES, rest);
    LineThen(Line2028(head, tail), rest);
  }

  lemma {:induction false} HalvesAlone(head: Text, tail: Text)
    requires Unbroken(head) && Unbroken(tail)
    ensures var content := Line2028(head, tail) + "\n";
            && ForwardLines(SPLITLINES, content) == [head, tail]
            && Stripped(Lines(content)) == [Line2028(head, tail)]
  {
    var line, content := Line2028(head, tail), Line2028(head, tail) + "\n";
    HalvesRead(head, tail, "");
    assert content + "" == content;
    assert Split(content) == [line, ""];
    assert StripCR(line) == line;
  }

  /**
   Encoding leaves U+2028 in a string as it is. An entry with it is listed, but whatever ids are deleted, its two
   halves are written as lines of their own: it is lost, and nothing is reported as removed.
   */
  lemma {:induction false} UnicodeBreakLosesEntry(codec: Codec, item: Item, head: Text, tail: Text, ids: set<Text>)
    requires Sound(codec) && item.id != "" && codec.encode(item) == Line2028(head, tail) && ids != {}
    requires Unbroken(head) && Unbroken(tail) && codec.decode(head) == codec.decode(tail) == Failed
    ensures var content, everything := codec.encode(item) + "\n", Query("", false, _ => true);
            && Listing(codec, everything, content) == [item]
            && Listing(codec, everything, Rewritten(codec, HasId(ids), SPLITLINES, content)) == []
            && var lines := ForwardLines(SPLITLINES, content);
               RemovedCount(codec, HasId(ids), lines, |lines|) == 0
  {
    var content, everything := codec.encode(item) + "\n", Query("", false, _ => true);
    HalvesAlone(head, tail);
    ListingForwards(codec, everything, content);
    RewrittenLists(codec, everything, HasId(ids), SPLITLINES, content);
    assert Newer(codec, everything, [head, tail], 1) == Newer(codec, everything, [head, tail], 0) == [];
    assert RemovedCount(codec, HasId(ids), [head, tail], 1) == RemovedCount(codec, HasId(ids), [head, tail], 0) == 0;
  }

  /** Behind such an entry an older one without an id is listed under an id that deletes nothing. */
  lemma {:induction false} UnicodeBreakHidesId(codec: Codec, head: Text, tail: Text, entry: Text)
    requires Unbroken(head) && Unbroken(tail) && codec.decode(head) == codec.decode(tail) == Failed
    requires codec.decode(entry).Parsed? && codec.decode(entry).item.id == "" && entry != "" && Unbroken(entry)
    requires codec.digest(entry, 1) != codec.digest(entry, 2)
    ensures var content := Line2028(head, tail) + "\n" + (entry + "\n");
            var listing, shown := Listing(codec, Query("", false, _ => true), content), codec.digest(entry, 1);
            && listing != [] && listing[0] == codec.decode(entry).item.(id := shown)
            && var lines := ForwardLines(SPLITLINES, content);
               RemovedCount(codec, HasId({shown}), lines, |lines|) == 0
  {
    var content, everything := Line2028(head, tail) + "\n" + (entry + "\n"), Query("", false, _ => true);
    TwoReadings(head, tail, entry);
    ListingForwards(codec, everything, content);
    var doomed, lines := HasId({codec.digest(entry, 1)}), [head, tail, entry];
    assert RemovedCount(codec, doomed, lines, 1) == RemovedCount(codec, doomed, lines, 0) == 0;
    assert RemovedCount(codec, doomed, lines, 2) == 0;
  }

  lemma {:induction false} TwoReadings(head: Text, tail: Text, entry: Text)
    requires Unbroken(head) && Unbroken(tail) && entry != "" && Unbroken(entry)
    ensures var content := Line2028(head, tail) + "\n" + (entry + "\n");
            && ForwardLines(SPLITLINES, content) == [head, tail, entry]
            && Stripped(Lines(content)) == [Line2028(head, tail), entry]
  {
    var line, rest := Line2028(head, tail), entry + "\n";
    HalvesRead(head, tail, rest);
    LastLineReads(entry);
    assert Split(line + "\n" + rest) == [line, entry, ""];
    assert StripCR(entry) == entry && StripCR(line) == line;
  }

  lemma LastLineReads(entry: Text)
    requires entry != "" && Unbroken(entry)
    ensures Cut(SPLITLINES, entry + "\n") == [entry, ""] == Split(entry + "\n")
  {
    assert entry + "\n" + "" == entry + "\n";
    CutAtBreak(SPLITLINES, entry, '\n', "");
    LineThen(entry, "");
  }
}
