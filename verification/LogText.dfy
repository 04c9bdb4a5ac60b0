/**
 Splitting the log file's text into lines.
 */
module LogText {

  type Text = string

  /** The pieces between newline characters: always one more than there are newlines. */
  function Split(s: Text): (pieces: seq<Text>)
    ensures |pieces| >= 1
  {
    if s == "" then [""]
    else
      var rest := Split(s[1..]);
      if s[0] == '\n' then [""] + rest else [[s[0]] + rest[0]] + rest[1..]
  }

  function Join(pieces: seq<Text>): Text
    requires pieces != []
  {
    if |pieces| == 1 then pieces[0] else pieces[0] + "\n" + Join(pieces[1..])
  }

  predicate NoNewline(s: Text) {
    '\n' !in s
  }

  /** Splitting cuts at every newline and loses nothing. */
  lemma {:induction false} SplitIsFaithful(s: Text)
    ensures Join(Split(s)) == s && forall i :: 0 <= i < |Split(s)| ==> NoNewline(Split(s)[i])
  {
    if s == "" {
    } else {
      SplitIsFaithful(s[1..]);
      var rest := Split(s[1..]);
      assert s == [s[0]] + s[1..];
      if s[0] == '\n' {
        assert ([""] + rest)[1..] == rest;
      } else {
        assert ([[s[0]] + rest[0]] + rest[1..])[1..] == rest[1..];
      }
    }
  }

  lemma {:induction false} SplitOfPlain(s: Text)
    requires NoNewline(s)
    ensures Split(s) == [s]
  {
    if s == "" {
    } else {
      SplitOfPlain(s[1..]);
      assert s == [s[0]] + s[1..];
    }
  }

  /** Pieces of two adjoining texts: the last of the front and the first of the back are one. */
  function Glue(p: seq<Text>, q: seq<Text>): seq<Text>
    requires p != [] && q != []
  {
    p[..|p| - 1] + [p[|p| - 1] + q[0]] + q[1..]
  }

  lemma {:induction false} GlueAfterBreak(p: seq<Text>, q: seq<Text>)
    requires p != [] && q != []
    ensures Glue([""] + p, q) == [""] + Glue(p, q)
  {
    assert ([""] + p)[..|p|] == [""] + p[..|p| - 1];
  }

  lemma {:induction false} GlueAfterLetter(c: char, p: seq<Text>, q: seq<Text>)
    requires p != [] && q != []
    ensures var r := Glue(p, q); Glue([[c] + p[0]] + p[1..], q) == [[c] + r[0]] + r[1..]
  {
    var p' := [[c] + p[0]] + p[1..];
    if |p| == 1 {
      assert [c] + p[0] + q[0] == [c] + (p[0] + q[0]);
    } else {
      assert p'[..|p| - 1] == [[c] + p[0]] + p[..|p| - 1][1..];
    }
  }

  /** Splitting a concatenation glues the splits of its parts. */
  lemma {:induction false} SplitAppend(a: Text, b: Text)
    ensures Split(a + b) == Glue(Split(a), Split(b))
  {
    var q := Split(b);
    if a == "" {
      assert a + b == b;
      assert "" + q[0] == q[0];
    } else {
      var p := Split(a[1..]);
      SplitAppend(a[1..], b);
      assert (a + b)[1..] == a[1..] + b;
      if a[0] == '\n' {
        GlueAfterBreak(p, q);
      } else {
        GlueAfterLetter(a[0], p, q);
      }
    }
  }

  lemma {:induction false} BreakThen(s: Text)
    ensures Split("\n" + s) == [""] + Split(s)
  {
    assert ("\n" + s)[1..] == s;
  }

  /** A line put before a text becomes its first piece. */
  lemma {:induction false} LineThen(line: Text, s: Text)
    requires NoNewline(line)
    ensures Split(line + "\n" + s) == [line] + Split(s)
  {
    if line == "" {
      assert line + "\n" == "\n";
      BreakThen(s);
    } else {
      LineThen(line[1..], s);
      assert (line + "\n" + s)[1..] == line[1..] + "\n" + s;
      assert [line[0]] + line[1..] == line;
      assert ([line[1..]] + Split(s))[1..] == Split(s);
    }
  }

  /** No other newline-free pieces join to the same text. */
  lemma {:induction false} SplitOfJoin(pieces: seq<Text>)
    requires pieces != [] && forall i :: 0 <= i < |pieces| ==> NoNewline(pieces[i])
    ensures Split(Join(pieces)) == pieces
  {
    if |pieces| == 1 {
      SplitOfPlain(pieces[0]);
    } else {
      SplitOfJoin(pieces[1..]);
      LineThen(pieces[0], Join(pieces[1..]));
    }
  }

  predicate EndsWithNewline(s: Text) {
    s != "" && s[|s| - 1] == '\n'
  }

  /** The lines of a file: a newline at the end closes the last line and opens none. */
  function Lines(s: Text): seq<Text> {
    if s == "" then []
    else
      var pieces := Split(s);
      if EndsWithNewline(s) then pieces[..|pieces| - 1] else pieces
  }

  lemma {:induction false} LastPiece(s: Text)
    requires s != ""
    ensures var p := Split(s); p[|p| - 1] == "" <==> EndsWithNewline(s)
  {
    var c := s[|s| - 1];
    var front := s[..|s| - 1];
    assert s == front + [c];
    if c == '\n' {
      BreakThen("");
      assert "\n" + "" == [c];
    } else {
      SplitOfPlain([c]);
    }
    SplitAppend(front, [c]);
  }

  function Newlines(s: Text): nat {
    if s == "" then 0 else (if s[0] == '\n' then 1 else 0) + Newlines(s[1..])
  }

  lemma {:induction false} PiecesAreNewlines(s: Text)
    ensures |Split(s)| == Newlines(s) + 1
  {
    if s == "" {
    } else {
      PiecesAreNewlines(s[1..]);
    }
  }

  lemma {:induction false} NewlinesAppend(a: Text, b: Text)
    ensures Newlines(a + b) == Newlines(a) + Newlines(b)
  {
    if a == "" {
      assert a + b == b;
    } else {
      NewlinesAppend(a[1..], b);
      assert (a + b)[1..] == a[1..] + b;
    }
  }

  /** A carriage return before the line end belongs to the line end. */
  function StripCR(s: Text): Text {
    if s != "" && s[|s| - 1] == '\r' then s[..|s| - 1] else s
  }

  function Stripped(lines: seq<Text>): (r: seq<Text>)
    ensures |r| == |lines| && forall i :: 0 <= i < |r| ==> r[i] == StripCR(lines[i])
  {
    seq(|lines|, i requires 0 <= i < |lines| => StripCR(lines[i]))
  }
}
