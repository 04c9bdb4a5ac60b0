/**
 What deletion and clearing out ask of decoding and encoding is true of JSON objects, each on one line without
 white space; and such a line is split where a string in it has U+2028.
 */
module LogCodec {

  import F = JsonFile
  import J = JsonText
  import P = JsonParser
  import opened JsonCompact
  import opened LogText
  import opened LogPaging
  import opened LogRewrite

  // ---- Log entries ----

  /** An entry as the object that is written; what it holds besides id and type is one text here. */
  function Fields(item: Item): J.Members {
    J.More("id", J.Text(item.id), J.More("type", J.Text(item.kind), J.More("detail", J.Text(item.rest), J.End)))
  }

  /** The text under a key, empty if there is none. */
  function TextAt(m: J.Members, key: string): string {
    if m.End? then ""
    else if m.key == key && m.value.Text? then m.value.chars
    else TextAt(m.rest, key)
  }

  /** Any object is an entry, anything else is none. */
  function ReadEntry(line: Text): Parse {
    match P.Parse(line, P.Dictionary)
    case Unusable => Failed
    case Value(j) =>
      if j.Object? then Parsed(Item(TextAt(j.fields, "id"), TextAt(j.fields, "type"), TextAt(j.fields, "detail")))
      else Failed
  }

  function JsonLines(): Codec {
    Codec(line => ReadEntry(line), item => Compact(J.Object(Fields(item))), (line, n) => "id")
  }

  lemma {:induction false} FieldsAreWellFormed(item: Item)
    ensures J.WellFormedMembers(Fields(item), true)
    ensures TextAt(Fields(item), "id") == item.id && TextAt(Fields(item), "type") == item.kind
    ensures TextAt(Fields(item), "detail") == item.rest
  {
    var m := Fields(item);
    assert J.Keys(m.rest.rest) == {"detail"} + {} && J.Keys(m.rest) == {"type"} + J.Keys(m.rest.rest);
    assert J.WellFormedMembers(m.rest.rest, true) && J.WellFormedMembers(m.rest, true);
    assert TextAt(m.rest, "type") == item.kind && TextAt(m.rest.rest, "detail") == item.rest;
    assert TextAt(m.rest, "detail") == item.rest;
  }

  lemma {:induction false} EntryReads(item: Item)
    ensures ReadEntry(Compact(J.Object(Fields(item)))) == Parsed(item)
  {
    var j := J.Object(Fields(item));
    FieldsAreWellFormed(item);
    CompactStarts(j, "");
    ReadsCompact(j, "");
    assert Compact(j) + "" == Compact(j);
  }

  function KeyedText(key: string, text: string): string {
    J.Quoted(key) + (":" + J.Quoted(text))
  }

  /** The inside of an entry's object, with `last` for the last string. */
  function InsideWith(id: Text, kind: Text, last: string): string {
    KeyedText("id", id) + ("," + (KeyedText("type", kind) + ("," + (J.Quoted("detail") + (":" + last)))))
  }

  lemma {:induction false} InsideThen(id: Text, kind: Text, last: string, x: string)
    ensures InsideWith(id, kind, last) + x == InsideWith(id, kind, last + x)
  {
    var detail := J.Quoted("detail") + (":" + last);
    var second := KeyedText("type", kind) + ("," + detail);
    J.Regroup(KeyedText("id", id), "," + second, x);
    J.Regroup(",", second, x);
    J.Regroup(KeyedText("type", kind), "," + detail, x);
    J.Regroup(",", detail, x);
    J.Regroup(J.Quoted("detail"), ":" + last, x);
    J.Regroup(":", last, x);
  }

  lemma {:induction false} MemberIsKeyed(key: string, text: string, rest: J.Members)
    ensures CompactMember(J.More(key, J.Text(text), rest), true) == KeyedText(key, text)
  {
    assert Compact(J.Text(text)) == J.Quoted(text);
  }

  lemma {:induction false} EntryInside(item: Item)
    ensures CompactInside(Fields(item), true) == InsideWith(item.id, item.kind, J.Quoted(item.rest))
  {
    var m := Fields(item);
    MemberIsKeyed("id", item.id, m.rest);
    MemberIsKeyed("type", item.kind, m.rest.rest);
    MemberIsKeyed("detail", item.rest, J.End);
    assert CompactMembers(m.rest.rest, true) == J.Quoted("detail") + (":" + J.Quoted(item.rest));
    assert CompactMembers(m.rest, true) == KeyedText("type", item.kind) + ("," + CompactMembers(m.rest.rest, true));
  }

  /** Newlines and carriage returns inside a string are escaped. */
  lemma {:induction false} EscapedIsOneLine(s: Text)
    ensures OneLine(J.Escaped(s)) && OneLine(J.Quoted(s))
  {
    if s == "" {
    } else {
      EscapedIsOneLine(s[1..]);
      assert OneLine(J.Escape(s[0]));
    }
  }

  lemma {:induction false} KeyedIsOneLine(key: string, text: string)
    ensures OneLine(KeyedText(key, text))
  {
    EscapedIsOneLine(key);
    EscapedIsOneLine(text);
  }

  lemma {:induction false} EntryIsOneLine(item: Item)
    ensures OneLine(Compact(J.Object(Fields(item))))
  {
    EntryInside(item);
    KeyedIsOneLine("id", item.id);
    KeyedIsOneLine("type", item.kind);
    EscapedIsOneLine("detail");
    EscapedIsOneLine(item.rest);
    assert OneLine(J.Quoted("detail") + (":" + J.Quoted(item.rest)));
  }

  lemma {:induction false} SoundCodecExists()
    ensures Sound(JsonLines())
  {
    forall item: Item
      ensures JsonLines().decode(JsonLines().encode(item)) == Parsed(item) && OneLine(JsonLines().encode(item))
    {
      EntryIsOneLine(item);
      EntryReads(item);
    }
  }

  // ---- An entry that deletion splits ----

  /** The line up to U+2028 in its last string. */
  function Head(id: Text, kind: Text, before: Text): Text {
    "{" + InsideWith(id, kind, "\"" + J.Escaped(before))
  }

  const TAIL := "\"}"

  lemma {:induction false} EscapedAppend(s: Text, t: Text)
    ensures J.Escaped(s + t) == J.Escaped(s) + J.Escaped(t)
  {
    if s == "" {
      assert s + t == t;
    } else {
      assert (s + t)[1..] == s[1..] + t;
      EscapedAppend(s[1..], t);
    }
  }

  lemma {:induction false} BreakQuoted(before: Text)
    ensures J.Quoted(before + "\U{2028}") + "}" == "\"" + J.Escaped(before) + ("\U{2028}" + TAIL)
  {
    EscapedAppend(before, "\U{2028}");
    assert J.Escaped("\U{2028}") == "\U{2028}" by {
      assert "\U{2028}"[1..] == "";
    }
  }

  lemma {:induction false} BreakStays(id: Text, kind: Text, before: Text)
    ensures JsonLines().encode(Item(id, kind, before + "\U{2028}")) == Line2028(Head(id, kind, before), TAIL)
  {
    var open := "\"" + J.Escaped(before);
    EntryInside(Item(id, kind, before + "\U{2028}"));
    InsideThen(id, kind, J.Quoted(before + "\U{2028}"), "}");
    BreakQuoted(before);
    InsideThen(id, kind, open, "\U{2028}" + TAIL);
    J.Regroup("{", InsideWith(id, kind, open), "\U{2028}" + TAIL);
    J.Regroup(Head(id, kind, before), "\U{2028}", TAIL);
  }

  lemma {:induction false} KeyedScans(s: J.Scan, key: string, text: string, rest: string)
    requires !s.inString && !s.escaped
    ensures J.ScanAll(s, KeyedText(key, text) + ("," + rest)) == J.ScanAll(s, rest)
  {
    J.QuotedIsNeutral(s, key);
    J.PlainIsNeutral(s, ":");
    J.QuotedIsNeutral(s, text);
    J.NeutralTwo(s, ":", J.Quoted(text));
    J.NeutralTwo(s, J.Quoted(key), ":" + J.Quoted(text));
    J.ScanTwo(s, KeyedText(key, text), "," + rest, 0);
    assert ("," + rest)[1..] == rest;
  }

  lemma {:induction false} InsideScans(s: J.Scan, id: Text, kind: Text, last: string)
    requires !s.inString && !s.escaped
    ensures J.ScanAll(s, InsideWith(id, kind, last)) == J.ScanAll(s, last)
  {
    var detail := J.Quoted("detail") + (":" + last);
    KeyedScans(s, "id", id, KeyedText("type", kind) + ("," + detail));
    KeyedScans(s, "type", kind, detail);
    J.QuotedIsNeutral(s, "detail");
    J.ScanTwo(s, J.Quoted("detail"), ":" + last, 0);
    assert (":" + last)[1..] == last;
  }

  /** The first half leaves a string open. */
  lemma {:induction false} HeadIsOpen(id: Text, kind: Text, before: Text)
    ensures !J.Closed(Head(id, kind, before))
  {
    var open := "\"" + J.Escaped(before);
    assert Head(id, kind, before)[1..] == InsideWith(id, kind, open);
    InsideScans(P.Outside(1), id, kind, open);
    assert open[1..] == J.Escaped(before);
    J.EscapedIsNeutral(1, before);
  }

  lemma {:induction false} HalvesFail(id: Text, kind: Text, before: Text)
    ensures ReadEntry(Head(id, kind, before)) == ReadEntry(TAIL) == Failed
  {
    HeadIsOpen(id, kind, before);
    if P.Parse(Head(id, kind, before), P.Dictionary) != F.Unusable {
      P.AcceptedIsClosed(Head(id, kind, before), P.Dictionary);
    }
    assert TAIL[1..] == "}" && "}"[1..] == "";
    assert P.ReadChars("}") == P.Fail;
  }

  lemma {:induction false} HeadIsUnbroken(id: Text, kind: Text, before: Text)
    requires Unbroken(J.Quoted(id)) && Unbroken(J.Quoted(kind)) && Unbroken(J.Escaped(before))
    ensures Unbroken(Head(id, kind, before))
  {
    var last := J.Quoted("detail") + (":" + ("\"" + J.Escaped(before)));
    LettersAreUnbroken("id");
    LettersAreUnbroken("type");
    LastIsUnbroken(before);
    KeyedIsUnbroken("type", kind, last);
    KeyedIsUnbroken("id", id, KeyedText("type", kind) + ("," + last));
    UnbrokenTwo("{", InsideWith(id, kind, "\"" + J.Escaped(before)));
  }

  lemma {:induction false} LastIsUnbroken(before: Text)
    requires Unbroken(J.Escaped(before))
    ensures Unbroken(J.Quoted("detail") + (":" + ("\"" + J.Escaped(before))))
  {
    LettersAreUnbroken("detail");
    UnbrokenTwo("\"", J.Escaped(before));
    UnbrokenTwo(":", "\"" + J.Escaped(before));
    UnbrokenTwo(J.Quoted("detail"), ":" + ("\"" + J.Escaped(before)));
  }

  lemma {:induction false} KeyedIsUnbroken(key: string, text: string, rest: string)
    requires Unbroken(J.Quoted(key)) && Unbroken(J.Quoted(text)) && Unbroken(rest)
    ensures Unbroken(KeyedText(key, text) + ("," + rest))
  {
    UnbrokenTwo(":", J.Quoted(text));
    UnbrokenTwo(J.Quoted(key), ":" + J.Quoted(text));
    UnbrokenTwo(",", rest);
    UnbrokenTwo(KeyedText(key, text), "," + rest);
  }

  lemma {:induction false} UnbrokenTwo(a: Text, b: Text)
    requires Unbroken(a) && Unbroken(b)
    ensures Unbroken(a + b)
  {
    forall i | 0 <= i < |a + b| ensures !SPLITLINES((a + b)[i]) {
      assert (a + b)[i] == if i < |a| then a[i] else b[i - |a|];
    }
  }

  lemma {:induction false} LettersAreUnbroken(s: Text)
    requires forall i :: 0 <= i < |s| ==> 'a' <= s[i] <= 'z'
    ensures Unbroken(J.Escaped(s)) && Unbroken(J.Quoted(s))
  {
    if s == "" {
    } else {
      LettersAreUnbroken(s[1..]);
    }
  }

  /** Entries with U+2028 at the end of a string are split into two lines that are no entries. */
  lemma {:induction false} EntriesCanSplit(id: Text, kind: Text, before: Text)
    requires Unbroken(J.Quoted(id)) && Unbroken(J.Quoted(kind)) && Unbroken(J.Escaped(before))
    ensures var head := Head(id, kind, before);
            && JsonLines().encode(Item(id, kind, before + "\U{2028}")) == Line2028(head, TAIL)
            && Unbroken(head) && Unbroken(TAIL)
            && JsonLines().decode(head) == JsonLines().decode(TAIL) == Failed
  {
    BreakStays(id, kind, before);
    HalvesFail(id, kind, before);
    HeadIsUnbroken(id, kind, before);
  }
}
