/**
 JSON written without white space, and that it is read back too.
 */
module JsonCompact {

  import opened JsonText
  import opened JsonParser

  function Compact(j: Json): string
    decreases j, 0
  {
    match j
    case Atom(text) => text
    case Text(chars) => Quoted(chars)
    case Array(items) => "[" + (CompactInside(items, false) + "]")
    case Object(fields) => "{" + (CompactInside(fields, true) + "}")
  }

  function CompactInside(m: Members, keyed: bool): string
    decreases m, 2
  {
    if m.End? then "" else CompactMembers(m, keyed)
  }

  function CompactMembers(m: Members, keyed: bool): string
    requires m.More?
    decreases m, 1
  {
    var first := CompactMember(m, keyed);
    if m.rest.End? then first else first + ("," + CompactMembers(m.rest, keyed))
  }

  function CompactMember(m: Members, keyed: bool): string
    requires m.More?
    decreases m, 0
  {
    if keyed then Quoted(m.key) + (":" + Compact(m.value)) else Compact(m.value)
  }

  lemma {:induction false} CompactStarts(j: Json, x: string)
    requires WellFormed(j)
    ensures Compact(j) != ""
    ensures var c := (Compact(j) + x)[0];
            match j
            case Atom(_) => AtomChar(c)
            case Text(_) => c == '"'
            case Array(_) => c == '['
            case Object(_) => c == '{'
  {
  }

  /** What stands behind the first member when the closing bracket and `x` stand behind them all. */
  function CompactBehind(m: Members, keyed: bool, x: string): string
    requires m.More?
  {
    if m.rest.End? then x else "," + (CompactMembers(m.rest, keyed) + x)
  }

  lemma {:induction false} CompactThen(m: Members, keyed: bool, x: string)
    requires m.More?
    ensures CompactMembers(m, keyed) + x == CompactMember(m, keyed) + CompactBehind(m, keyed, x)
  {
    if m.rest.More? {
      Regroup(CompactMember(m, keyed), "," + CompactMembers(m.rest, keyed), x);
      Regroup(",", CompactMembers(m.rest, keyed), x);
    }
  }

  lemma {:induction false} CompactMemberStarts(m: Members, keyed: bool, x: string)
    requires m.More? && WellFormedMembers(m, keyed)
    ensures var text := CompactMember(m, keyed) + x;
            text != "" && !Blank(text[0]) && text[0] != Close(keyed)
  {
    if !keyed {
      CompactStarts(m.value, x);
    }
  }

  /** A value written without white space is read from the front of any text in which it ends. */
  lemma {:induction false} ReadsCompact(j: Json, x: string)
    requires WellFormed(j) && Ended(x)
    ensures ReadValue(Compact(j) + x) == Got(j, x)
    decreases j, 0
  {
    CompactStarts(j, x);
    match j
    case Atom(text) => WordOf(text, x);
    case Text(chars) => ReadsQuoted(chars, x);
    case Array(items) =>
      ReadsCompactInside(items, false, x);
      CompactBrackets("[", CompactInside(items, false), "]", x);
    case Object(fields) =>
      ReadsCompactInside(fields, true, x);
      CompactBrackets("{", CompactInside(fields, true), "}", x);
  }

  lemma {:induction false} CompactBrackets(open: string, inside: string, close: string, x: string)
    requires |open| == 1
    ensures (open + (inside + close) + x)[1..] == inside + (close + x)
  {
  }

  lemma {:induction false} ReadsCompactInside(m: Members, keyed: bool, x: string)
    requires WellFormedMembers(m, keyed)
    ensures ReadInside(CompactInside(m, keyed) + ([Close(keyed)] + x), keyed) == Got(m, x)
    decreases m, 3
  {
    var behind := [Close(keyed)] + x;
    if m.End? {
      NoFront(behind);
      assert behind[1..] == x;
    } else {
      CompactThen(m, keyed, behind);
      CompactMemberStarts(m, keyed, CompactBehind(m, keyed, behind));
      ReadsCompactMembers(m, keyed, x);
    }
  }

  lemma {:induction false} ReadsCompactMembers(m: Members, keyed: bool, x: string)
    requires m.More? && WellFormedMembers(m, keyed)
    ensures ReadMembers(CompactMember(m, keyed) + CompactBehind(m, keyed, [Close(keyed)] + x), keyed) == Got(m, x)
    decreases m, 2
  {
    var end := [Close(keyed)] + x;
    var text := CompactMember(m, keyed) + CompactBehind(m, keyed, end);
    ReadsCompactMember(m, keyed, CompactBehind(m, keyed, end));
    if m.rest.End? {
      ReadsLast(text, m.key, m.value, end, keyed, x);
    } else {
      CompactThen(m.rest, keyed, end);
      CompactMemberStarts(m.rest, keyed, CompactBehind(m.rest, keyed, end));
      ReadsCompactMembers(m.rest, keyed, x);
      ReadsNext(text, m.key, m.value, CompactMembers(m.rest, keyed) + end, keyed, m.rest, x);
    }
  }

  lemma {:induction false} ReadsCompactKey(key: string, x: string)
    requires x != "" && !Blank(x[0])
    ensures ReadMember(Quoted(key) + (":" + x), true) == WithKey(key, ReadValue(x))
  {
    ReadsQuoted(key, ":" + x);
    assert (":" + x)[1..] == x;
    assert Skip(":" + x) == ":" + x && Skip(x) == x;
  }

  lemma {:induction false} ReadsCompactMember(m: Members, keyed: bool, x: string)
    requires m.More? && WellFormedMembers(m, keyed) && Ended(x)
    ensures ReadMember(CompactMember(m, keyed) + x, keyed) == Got((m.key, m.value), x)
    decreases m, 1
  {
    var value := Compact(m.value);
    ReadsCompact(m.value, x);
    if keyed {
      CompactStarts(m.value, x);
      Regroup(Quoted(m.key), ":" + value, x);
      Regroup(":", value, x);
      ReadsCompactKey(m.key, value + x);
    }
  }
}
