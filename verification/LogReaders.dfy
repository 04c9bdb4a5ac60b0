/**
 The two readers that walk the log file backwards in chunks, and the line counter.
 */
module LogReaders {

  import opened LogText

  /** Lines from the last one backwards, numbered downwards from `top`. */
  function FromEnd(lines: seq<Text>, top: int): seq<(Text, int)> {
    seq(|lines|, k requires 0 <= k < |lines| => (StripCR(lines[|lines| - 1 - k]), top - k))
  }

  /** The whole file read backwards, with the numbers a forward reader gives its lines. */
  function WholeBack(content: Text): seq<(Text, int)> {
    FromEnd(Lines(content), |Lines(content)| - 1)
  }

  /** The lines of the pieces from `i` on, read backwards; a blank last piece is no line. */
  function BackTo(pieces: seq<Text>, i: nat, top: int): seq<(Text, int)>
    requires i <= |pieces|
    decreases |pieces| - i
  {
    if i == |pieces| || (i == |pieces| - 1 && pieces[i] == "") then []
    else
      var later := BackTo(pieces, i + 1, top);
      later + [(StripCR(pieces[i]), top - |later|)]
  }

  lemma {:induction false} BackToLength(pieces: seq<Text>, i: nat, top: int)
    requires i < |pieces|
    ensures |BackTo(pieces, i, top)| == |pieces| - i - (if pieces[|pieces| - 1] == "" then 1 else 0)
    decreases |pieces| - i
  {
    if i + 1 < |pieces| {
      BackToLength(pieces, i + 1, top);
    }
  }

  lemma {:induction false} BackToAt(pieces: seq<Text>, i: nat, top: int, k: nat)
    requires i <= |pieces| && k < |BackTo(pieces, i, top)|
    ensures var last := |pieces| - 1 - (if pieces[|pieces| - 1] == "" then 1 else 0);
            last - k >= i && BackTo(pieces, i, top)[k] == (StripCR(pieces[last - k]), top - k)
    decreases |pieces| - i
  {
    BackToLength(pieces, i, top);
    if k < |BackTo(pieces, i, top)| - 1 {
      BackToAt(pieces, i + 1, top, k);
    } else if i + 1 < |pieces| {
      BackToLength(pieces, i + 1, top);
    }
  }

  /** Reading further back only adds lines at the end. */
  lemma {:induction false} BackToGrows(pieces: seq<Text>, i: nat, j: nat, top: int)
    requires i <= j <= |pieces|
    ensures BackTo(pieces, j, top) <= BackTo(pieces, i, top)
    decreases j - i
  {
    if i < j {
      BackToGrows(pieces, i + 1, j, top);
    }
  }

  lemma {:induction false} LineTotal(content: Text)
    requires content != ""
    ensures |Lines(content)| == |Split(content)| - (if EndsWithNewline(content) then 1 else 0)
    ensures |Lines(content)| >= 1 && Lines(content)[0] == Split(content)[0]
  {
    LastPiece(content);
    if |Split(content)| == 1 {
      SplitIsFaithful(content);
    }
  }

  /** All pieces read backwards are the whole file read backwards. */
  lemma {:induction false} AllPieces(content: Text)
    requires content != ""
    ensures BackTo(Split(content), 0, |Lines(content)| - 1) == WholeBack(content)
  {
    var pieces, top := Split(content), |Lines(content)| - 1;
    LastPiece(content);
    BackToLength(pieces, 0, top);
    forall k: nat | k < |Lines(content)|
      ensures BackTo(pieces, 0, top)[k] == (StripCR(Lines(content)[top - k]), top - k)
    {
      BackToAt(pieces, 0, top, k);
    }
  }

  lemma {:induction false} FirstLineLast(content: Text)
    requires content != ""
    ensures var pieces, top := Split(content), |Lines(content)| - 1;
            && |BackTo(pieces, 1, top)| == top
            && WholeBack(content) == BackTo(pieces, 1, top) + [(StripCR(pieces[0]), 0)]
  {
    LineTotal(content);
    LastPiece(content);
    AllPieces(content);
    BackToLength(Split(content), 0, |Lines(content)| - 1);
  }

  /**
   The part from `position` on has been read: `buffer` is its first, still growing piece,
   and the others are the whole file's pieces from `k` on.
   */
  predicate ReadTo(content: Text, position: nat, buffer: Text, k: nat)
    requires position <= |content|
  {
    var pieces, read := Split(content), Split(content[position..]);
    && 1 <= k && |read| == |pieces| - k + 1 && read[0] == buffer
    && forall j :: k <= j < |pieces| ==> pieces[j] == read[j - k + 1]
  }

  lemma {:induction false} PieceExtends(front: Text, rest: Text)
    ensures var parts, later, all := Split(front + Split(rest)[0]), Split(rest), Split(front + rest);
            && |all| == |parts| + |later| - 1
            && (forall j :: 0 <= j < |parts| ==> all[j] == parts[j])
            && (forall j :: 1 <= j < |later| ==> later[j] == all[|parts| + j - 1])
  {
    SplitIsFaithful(rest);
    SplitOfPlain(Split(rest)[0]);
    SplitAppend(front, rest);
    SplitAppend(front, Split(rest)[0]);
  }

  /** The pieces behind the first of a back part are the last pieces of the whole. */
  lemma {:induction false} LaterPieces(front: Text, back: Text)
    ensures var p, q := Split(front + back), Split(back);
            |q| <= |p| && forall j :: 1 <= j < |q| ==> q[j] == p[|p| - |q| + j]
  {
    SplitAppend(front, back);
  }

  /** One chunk more: all but the first of its parts are now whole pieces of the file. */
  lemma {:induction false} ChunkReads(content: Text, position: nat, readSize: nat, buffer: Text, k: nat)
    requires position + readSize <= |content|
    requires ReadTo(content, position + readSize, buffer, k)
    ensures var parts := Split(content[position..position + readSize] + buffer);
            && |parts| <= k <= |Split(content)|
            && ReadTo(content, position, parts[0], k + 1 - |parts|)
            && forall i :: 1 <= i < |parts| ==> parts[i] == Split(content)[k - |parts| + i]
  {
    var front, rest := content[position..position + readSize], content[position + readSize..];
    assert content[position..] == front + rest;
    assert content == content[..position] + (front + rest);
    PieceExtends(front, rest);
    LaterPieces(content[..position], front + rest);
  }

  lemma {:induction false} ReadAll(content: Text, buffer: Text, k: nat)
    requires ReadTo(content, 0, buffer, k)
    ensures k == 1 && buffer == Split(content)[0]
  {
    assert content[0..] == content;
  }

  lemma {:induction false} NothingRead(content: Text)
    ensures ReadTo(content, |content|, "", |Split(content)|)
  {
    assert content[|content|..] == "";
  }

  function Smaller(a: nat, b: nat): nat {
    if a < b then a else b
  }

  method LineCount(content: Text, chunkSize: nat) returns (total: nat)
    requires chunkSize >= 1
    ensures total == |Lines(content)|
  {
    if content == "" {
      return 0;
    }
    var newlines, position := 0, 0;
    while position < |content|
      invariant position <= |content|
      invariant newlines == Newlines(content[..position])
    {
      var size := Smaller(chunkSize, |content| - position);
      var chunk := content[position..position + size];
      NewlinesAppend(content[..position], chunk);
      assert content[..position + size] == content[..position] + chunk;
      newlines := newlines + Newlines(chunk);
      position := position + size;
    }
    assert content[..position] == content;
    PiecesAreNewlines(content);
    total := if content[|content| - 1] == '\n' then newlines else newlines + 1;
  }

  method ReadChunk(content: Text, position: nat, readSize: nat, buffer: Text, ghost k: nat)
    returns (parts: seq<Text>)
    requires position + readSize <= |content|
    requires ReadTo(content, position + readSize, buffer, k)
    ensures 1 <= |parts| <= k <= |Split(content)|
    ensures ReadTo(content, position, parts[0], k + 1 - |parts|)
    ensures forall i :: 1 <= i < |parts| ==> parts[i] == Split(content)[k - |parts| + i]
  {
    ChunkReads(content, position, readSize, buffer, k);
    parts := Split(content[position..position + readSize] + buffer);
  }

  /** The inner loop of the full reader: the parts of one chunk, last first. */
  method TakeLines(parts: seq<Text>, total: nat, sofar: seq<(Text, int)>, skipped: bool,
                   ghost pieces: seq<Text>, ghost k: nat)
    returns (out: seq<(Text, int)>, skippedTrailingNewline: bool)
    requires 1 <= |parts| <= k <= |pieces|
    requires forall i :: 1 <= i < |parts| ==> parts[i] == pieces[k - |parts| + i]
    requires skipped <==> k < |pieces|
    requires sofar == BackTo(pieces, k, total - 1)
    ensures skippedTrailingNewline <==> k + 1 - |parts| < |pieces|
    ensures out == BackTo(pieces, k + 1 - |parts|, total - 1)
  {
    out, skippedTrailingNewline := sofar, skipped;
    var lineNumber := total - 1 - |sofar|;
    var i := |parts|;
    while i > 1
      invariant 1 <= i <= |parts|
      invariant skippedTrailingNewline <==> k - |parts| + i < |pieces|
      invariant out == BackTo(pieces, k - |parts| + i, total - 1)
      invariant lineNumber == total - 1 - |out|
    {
      i := i - 1;
      var rawLine := parts[i];
      if !skippedTrailingNewline && rawLine == "" && lineNumber == total - 1 {
        skippedTrailingNewline := true;
      } else {
        skippedTrailingNewline := true;
        out := out + [(StripCR(rawLine), lineNumber)];
        lineNumber := lineNumber - 1;
      }
    }
  }

  /** Where the full reader stands: the text from `position` on is read, and all but its first piece is out. */
  predicate StandsAt(content: Text, total: nat, position: nat, buffer: Text, k: nat, out: seq<(Text, int)>, skipped: bool)
    requires position <= |content|
  {
    && ReadTo(content, position, buffer, k) && k <= |Split(content)|
    && (skipped <==> k < |Split(content)|) && out == BackTo(Split(content), k, total - 1)
  }

  /** One turn of the full reader. */
  method ReadBack(content: Text, total: nat, position: nat, readSize: nat, buffer: Text, sofar: seq<(Text, int)>,
                  skipped: bool, ghost k: nat)
    returns (first: Text, out: seq<(Text, int)>, skippedTrailingNewline: bool, ghost k': nat)
    requires position + readSize <= |content| && StandsAt(content, total, position + readSize, buffer, k, sofar, skipped)
    ensures StandsAt(content, total, position, first, k', out, skippedTrailingNewline)
  {
    var parts := ReadChunk(content, position, readSize, buffer, k);
    first := parts[0];
    out, skippedTrailingNewline := TakeLines(parts, total, sofar, skipped, Split(content), k);
    k' := k + 1 - |parts|;
  }

  /** The chunked backward reader gives exactly the forward lines in reverse, whatever the chunk size. */
  method IterRawLinesReverse(content: Text, chunkSize: nat) returns (out: seq<(Text, int)>)
    requires chunkSize >= 1
    ensures out == WholeBack(content)
  {
    out := [];
    var total := LineCount(content, chunkSize);
    if total <= 0 {
      return;
    }
    var buffer, skippedTrailingNewline, position := "", false, |content|;
    ghost var k: nat := |Split(content)|;
    NothingRead(content);
    while position > 0
      invariant 0 <= position <= |content|
      invariant StandsAt(content, total, position, buffer, k, out, skippedTrailingNewline)
    {
      var readSize := Smaller(chunkSize, position);
      position := position - readSize;
      buffer, out, skippedTrailingNewline, k :=
        ReadBack(content, total, position, readSize, buffer, out, skippedTrailingNewline, k);
    }
    ReadAll(content, buffer, k);
    FirstLineLast(content);
    var lineNumber := total - 1 - |out|;
    if lineNumber >= 0 {
      out := out + [(StripCR(buffer), lineNumber)];
    }
  }

  /** All that the fast reader can see: never a first line that is empty. */
  function RecentBack(content: Text, top: int): seq<(Text, int)> {
    var pieces := Split(content);
    BackTo(pieces, if pieces[0] == "" then 1 else 0, top)
  }

  function Newest<T>(items: seq<T>, count: int): seq<T> {
    if count <= 0 then [] else if count < |items| then items[..count] else items
  }

  /** The first items, as many as asked for or as there are. */
  lemma NewestAreFirst<T>(items: seq<T>, count: int)
    ensures Newest(items, count) <= items
    ensures |Newest(items, count)| == if count < 0 then 0 else Smaller(count, |items|)
    ensures forall a: nat, b: nat :: Smaller(a, b) <= a && Smaller(a, b) <= b && (Smaller(a, b) == a || Smaller(a, b) == b)
  {
  }

  /** The inner loop of the fast reader, which stops once enough lines are out. */
  method TakeRecent(parts: seq<Text>, maxItems: nat, top: int, sofar: seq<(Text, int)>, skipped: bool,
                    ghost pieces: seq<Text>, ghost k: nat)
    returns (out: seq<(Text, int)>, skippedTrailingNewline: bool, ghost k': nat)
    requires 1 <= |parts| <= k <= |pieces|
    requires forall i :: 1 <= i < |parts| ==> parts[i] == pieces[k - |parts| + i]
    requires skipped <==> k < |pieces|
    requires |sofar| < maxItems && sofar == BackTo(pieces, k, top)
    ensures k + 1 - |parts| <= k' <= k
    ensures |out| == maxItems || (|out| < maxItems && k' == k + 1 - |parts|)
    ensures skippedTrailingNewline <==> k' < |pieces|
    ensures out == BackTo(pieces, k', top)
  {
    out, skippedTrailingNewline := sofar, skipped;
    var lineNumber, emitted := top - |sofar|, |sofar|;
    var i := |parts|;
    while i > 1
      invariant 1 <= i <= |parts|
      invariant skippedTrailingNewline <==> k - |parts| + i < |pieces|
      invariant out == BackTo(pieces, k - |parts| + i, top)
      invariant emitted == |out| < maxItems && lineNumber == top - emitted
    {
      i := i - 1;
      var rawLine := parts[i];
      if !skippedTrailingNewline && rawLine == "" {
        skippedTrailingNewline := true;
      } else {
        skippedTrailingNewline := true;
        out := out + [(StripCR(rawLine), lineNumber)];
        emitted := emitted + 1;
        lineNumber := lineNumber - 1;
        if emitted >= maxItems {
          break;
        }
      }
    }
    k' := k - |parts| + i;
  }

  /**
   The fast reader gives the newest lines it can see, at most `maxItems` of them;
   `top` is the last line's number, or -1 when the caller has no total.
   */
  method IterRecentRawLines(content: Text, maxItems: int, top: int, chunkSize: nat)
    returns (out: seq<(Text, int)>)
    requires chunkSize >= 1
    ensures out == Newest(RecentBack(content, top), maxItems)
  {
    out := [];
    if maxItems <= 0 {
      return;
    }
    var buffer, skippedTrailingNewline, position := "", false, |content|;
    ghost var pieces := Split(content);
    ghost var k: nat := |pieces|;
    NothingRead(content);
    while position > 0 && |out| < maxItems
      invariant 0 <= position <= |content|
      invariant 1 <= k <= |pieces| && |out| <= maxItems
      invariant |out| < maxItems ==> ReadTo(content, position, buffer, k)
      invariant skippedTrailingNewline <==> k < |pieces|
      invariant out == BackTo(pieces, k, top)
    {
      var readSize := Smaller(chunkSize, position);
      position := position - readSize;
      var parts := ReadChunk(content, position, readSize, buffer, k);
      buffer := parts[0];
      out, skippedTrailingNewline, k := TakeRecent(parts, maxItems, top, out, skippedTrailingNewline, pieces, k);
    }
    BackToGrows(pieces, if pieces[0] == "" then 1 else 0, k, top);
    if |out| < maxItems {
      ReadAll(content, buffer, k);
      if buffer != "" {
        out := out + [(StripCR(buffer), top - |out|)];
      }
    }
  }

  /** Numbered alike, the fast reader misses exactly a first line that is empty, and nothing else. */
  lemma {:induction false} RecentAgrees(content: Text)
    ensures var lines, recent := Lines(content), RecentBack(content, |Lines(content)| - 1);
            && (recent == WholeBack(content) <==> (lines == [] || lines[0] != ""))
            && (lines != [] && lines[0] == "" ==> recent + [("", 0)] == WholeBack(content))
  {
    if content == "" {
      assert RecentBack(content, -1) == [];
    } else {
      LineTotal(content);
      FirstLineLast(content);
    }
  }
}
