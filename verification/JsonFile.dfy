/**
 The two copies of a JSON file: a write that can stop or fail at any step, and a read that takes
 the first copy it can use.
 */
module JsonFile {

  import opened JsonText

  datatype Entry = Absent | Directory | Holds(text: string)

  datatype Disk = Disk(primary: Entry, backup: Entry, temp: Entry)

  datatype Parsed = Unusable | Value(json: Json)

  /** What `json.loads` and the type test make of a text. */
  type Parser = string -> Parsed

  predicate Container(j: Json) {
    (j.Array? || j.Object?) && WellFormed(j)
  }

  function Content(j: Json): string {
    Render(j, 0) + "\n"
  }

  /** A parser that takes no empty text, and none with an open bracket or string. */
  ghost predicate Strict(parse: Parser) {
    parse("") == Unusable && forall text :: parse(text) != Unusable ==> Closed(text)
  }

  /** A container whose own text, with or without the final newline, is read back. */
  predicate ReadsBack(parse: Parser, j: Json) {
    Container(j) && parse(Content(j)) == parse(Render(j, 0)) == Value(j)
  }

  function Usable(parse: Parser, e: Entry): Parsed {
    if e.Holds? then parse(e.text) else Unusable
  }

  /** The primary copy if it can be used, else the backup, else nothing. */
  function Reading(parse: Parser, d: Disk): Parsed {
    if Usable(parse, d.primary) != Unusable then Usable(parse, d.primary) else Usable(parse, d.backup)
  }

  /** Reading tries the two copies in turn; `Unusable` stands for the caller's default. */
  method ReadJsonFile(parse: Parser, d: Disk) returns (data: Parsed)
    ensures data == Reading(parse, d)
  {
    var candidates := [d.primary, d.backup];
    for i := 0 to 2
      invariant i >= 1 ==> Usable(parse, d.primary) == Unusable
      invariant i == 2 ==> Usable(parse, d.backup) == Unusable
    {
      if candidates[i].Holds? {
        data := parse(candidates[i].text);
        if data != Unusable {
          return;
        }
      }
    }
    data := Unusable;
  }

  /** What can go wrong in one of the two writes: each number is where a write to a file stops with an error. */
  datatype Faults = Faults(tempStops: bool, tempAt: nat, replaceFails: bool, directStops: bool, directAt: nat)

  datatype Copy = Primary | Backup

  function CopyOf(d: Disk, copy: Copy): Entry {
    if copy == Primary then d.primary else d.backup
  }

  function WithCopy(d: Disk, copy: Copy, e: Entry): Disk {
    if copy == Primary then d.(primary := e) else d.(backup := e)
  }

  /** A file that has been written up to some point. */
  predicate PartOf(e: Entry, content: string) {
    e.Holds? && e.text <= content
  }

  datatype Place = Temp | InPlace(copy: Copy)

  function At(d: Disk, place: Place, e: Entry): Disk {
    if place.Temp? then d.(temp := e) else WithCopy(d, place.copy, e)
  }

  /** The states while the first `n` characters are written: the file is emptied, then it grows. */
  function Writing(d: Disk, place: Place, content: string, n: nat): seq<Disk>
    requires n <= |content|
  {
    if n == 0 then [At(d, place, Holds(""))]
    else Writing(d, place, content, n - 1) + [At(d, place, Holds(content[..n]))]
  }

  /** One file changes by one step: it is emptied or created, or it grows by one character. */
  predicate WritesOn(before: Entry, after: Entry) {
    after == Holds("")
    || (before.Holds? && after.Holds? && before.text <= after.text && |after.text| == |before.text| + 1)
  }

  /** What a write does to the disk at once: a step in one file, the temporary file moved into place, or deleted. */
  predicate OneStep(a: Disk, b: Disk) {
    || (a.primary == b.primary && a.backup == b.backup && (b.temp in {a.temp, Absent} || WritesOn(a.temp, b.temp)))
    || (a.temp == b.temp && a.backup == b.backup && WritesOn(a.primary, b.primary))
    || (a.temp == b.temp && a.primary == b.primary && WritesOn(a.backup, b.backup))
    || b == Disk(a.temp, a.backup, Absent) || b == Disk(a.primary, a.temp, Absent)
  }

  predicate StepsFrom(start: Disk, trace: seq<Disk>, i: nat)
    requires i < |trace|
  {
    OneStep(if i == 0 then start else trace[i - 1], trace[i])
  }

  /** The states follow each other by single steps, so that none is left out. */
  ghost predicate Unbroken(start: Disk, trace: seq<Disk>) {
    forall i :: 0 <= i < |trace| ==> StepsFrom(start, trace, i)
  }

  lemma UnbrokenTwo(start: Disk, a: seq<Disk>, b: seq<Disk>)
    requires Unbroken(start, a) && a != [] && Unbroken(a[|a| - 1], b)
    ensures Unbroken(start, a + b)
  {
    forall i | 0 <= i < |a + b| ensures StepsFrom(start, a + b, i) {
      if i < |a| {
        assert StepsFrom(start, a, i);
      } else {
        assert StepsFrom(a[|a| - 1], b, i - |a|);
      }
    }
  }

  lemma UnbrokenThen(start: Disk, a: seq<Disk>, last: Disk)
    requires Unbroken(start, a) && a != [] && OneStep(a[|a| - 1], last)
    ensures Unbroken(start, a + [last])
  {
    assert StepsFrom(a[|a| - 1], [last], 0);
    UnbrokenTwo(start, a, [last]);
  }

  lemma {:induction false} WritingIsUnbroken(d: Disk, place: Place, content: string, n: nat)
    requires n <= |content|
    ensures var trace := Writing(d, place, content, n);
            Unbroken(d, trace) && trace != [] && trace[|trace| - 1] == At(d, place, Holds(content[..n]))
  {
    if n == 0 {
      assert content[..0] == "";
    } else {
      WritingIsUnbroken(d, place, content, n - 1);
      UnbrokenThen(d, Writing(d, place, content, n - 1), At(d, place, Holds(content[..n])));
    }
  }

  /** Writing a file in place; an error can stop it after `at` characters. */
  method WriteText(d: Disk, place: Place, content: string, stops: bool, at: nat)
    returns (after: Disk, trace: seq<Disk>, failed: bool)
    ensures failed == (stops && at < |content|)
    ensures after == At(d, place, Holds(if failed then content[..at] else content))
    ensures trace == Writing(d, place, content, if failed then at else |content|)
    ensures Unbroken(d, trace) && trace != [] && trace[|trace| - 1] == after
  {
    after := At(d, place, Holds(""));
    trace := [after];
    var k := 0;
    assert content[..0] == "";
    while k < |content| && !(stops && k == at)
      invariant k <= |content| && (stops && at < |content| ==> k <= at)
      invariant after == At(d, place, Holds(content[..k]))
      invariant trace == Writing(d, place, content, k)
    {
      k := k + 1;
      after := At(d, place, Holds(content[..k]));
      trace := trace + [after];
    }
    failed := k < |content|;
    assert content[..|content|] == content;
    WritingIsUnbroken(d, place, content, k);
  }

  lemma {:induction false} WritingGrows(d: Disk, place: Place, content: string, n: nat)
    requires n <= |content|
    ensures |Writing(d, place, content, n)| == n + 1
    ensures forall i :: 0 <= i <= n ==> Writing(d, place, content, n)[i] == At(d, place, Holds(content[..i]))
  {
    if n == 0 {
    } else {
      WritingGrows(d, place, content, n - 1);
    }
  }

  /** While one copy is being written the other is as it was, and this one as before or a part of the content. */
  predicate During(before: Disk, copy: Copy, content: string, d: Disk) {
    var other := if copy == Primary then Backup else Primary;
    && CopyOf(d, other) == CopyOf(before, other)
    && (CopyOf(d, copy) == CopyOf(before, copy) || PartOf(CopyOf(d, copy), content))
  }

  /** While one copy is being replaced by a finished file: it is as before, or it is the whole content. */
  predicate Replacing(before: Disk, copy: Copy, content: string, d: Disk) {
    During(before, copy, content, d) && (CopyOf(d, copy) == CopyOf(before, copy) || CopyOf(d, copy) == Holds(content))
  }

  datatype Outcome = Replaced | FellBack | Raised

  /** A write fails in its temporary file, or in the direct write after it could not be moved into place. */
  predicate Fails(f: Faults, content: string) {
    (f.tempStops && f.tempAt < |content|) || (f.replaceFails && f.directStops && f.directAt < |content|)
  }

  predicate AllIn(trace: seq<Disk>, before: Disk, copy: Copy, content: string, atomic: bool) {
    forall i :: 0 <= i < |trace| ==>
      if atomic then Replacing(before, copy, content, trace[i]) else During(before, copy, content, trace[i])
  }

  lemma {:induction false} WritingIsDuring(d: Disk, place: Place, content: string, n: nat, before: Disk, copy: Copy)
    requires n <= |content| && During(before, copy, content, d)
    requires place.Temp? || place.copy == copy
    ensures AllIn(Writing(d, place, content, n), before, copy, content, false)
    ensures place.Temp? && Replacing(before, copy, content, d) ==>
              AllIn(Writing(d, place, content, n), before, copy, content, true)
  {
    WritingGrows(d, place, content, n);
  }

  /**
   One copy: a temporary file is written and moved into place; if it cannot be moved, the copy is
   overwritten directly. Only then can a part of the content ever stand there.
   */
  method WriteTextWithFallback(d: Disk, copy: Copy, content: string, f: Faults)
    returns (after: Disk, trace: seq<Disk>, outcome: Outcome)
    ensures AllIn(trace, d, copy, content, !f.replaceFails)
    ensures trace != [] && after == trace[|trace| - 1] && after.temp == Absent && Unbroken(d, trace)
    ensures outcome != Raised ==> CopyOf(after, copy) == Holds(content)
    ensures outcome == Raised <==> Fails(f, content)
    ensures outcome == FellBack <==> !Fails(f, content) && f.replaceFails
    ensures CopyOf(after, copy)
         == if f.tempStops && f.tempAt < |content| then CopyOf(d, copy)
            else if f.replaceFails && f.directStops && f.directAt < |content| then Holds(content[..f.directAt])
            else Holds(content)
  {
    var failed, more;
    after, trace, failed := WriteText(d, Temp, content, f.tempStops, f.tempAt);
    WritingIsDuring(d, Temp, content, if failed then f.tempAt else |content|, d, copy);
    if failed {
      outcome := Raised;
    } else if !f.replaceFails {
      after := WithCopy(after, copy, Holds(content)).(temp := Absent);
      UnbrokenThen(d, trace, after);
      trace := trace + [after];
      outcome := Replaced;
    } else {
      ghost var start := after;
      after, more, failed := WriteText(after, InPlace(copy), content, f.directStops, f.directAt);
      WritingIsDuring(start, InPlace(copy), content, if failed then f.directAt else |content|, d, copy);
      UnbrokenTwo(d, trace, more);
      trace := trace + more;
      outcome := if failed then Raised else FellBack;
    }
    after := after.(temp := Absent);
    UnbrokenThen(d, trace, after);
    trace := trace + [after];
  }

  /** The states in which a whole write can be interrupted: in its first copy, or in its second with the first done. */
  predicate Interrupted(before: Disk, content: string, d: Disk) {
    || During(before, Primary, content, d)
    || (d.primary == Holds(content) && During(before.(primary := Holds(content)), Backup, content, d))
  }

  predicate AllInterrupted(trace: seq<Disk>, before: Disk, content: string) {
    forall i :: 0 <= i < |trace| ==> Interrupted(before, content, trace[i])
  }

  /** Writing both copies; an error in the second one is only reported. */
  method WriteJsonFile(d: Disk, value: Json, backup: bool, first: Faults, second: Faults)
    returns (after: Disk, trace: seq<Disk>, raised: bool, backedUp: bool)
    ensures AllInterrupted(trace, d, Content(value)) && Unbroken(d, trace)
    ensures trace != [] && after == trace[|trace| - 1]
    ensures raised <==> Fails(first, Content(value))
    ensures raised ==> During(d, Primary, Content(value), after)
    ensures !raised ==> after.primary == Holds(Content(value))
    ensures backedUp <==> !raised && backup && !Fails(second, Content(value))
    ensures backedUp ==> after.backup == Holds(Content(value))
    ensures raised || !backup ==> after.backup == d.backup
  {
    var content := Content(value);
    var outcome, more;
    after, trace, outcome := WriteTextWithFallback(d, Primary, content, first);
    raised, backedUp := outcome == Raised, false;
    if raised || !backup {
      return;
    }
    after, more, outcome := WriteTextWithFallback(after, Backup, content, second);
    UnbrokenTwo(d, trace, more);
    trace := trace + more;
    backedUp := outcome != Raised;
  }

  /** A part of a container's text reads as nothing, unless it is all but white space. */
  lemma {:induction false} PartReads(parse: Parser, value: Json, e: Entry)
    requires Strict(parse) && ReadsBack(parse, value) && PartOf(e, Content(value))
    ensures Usable(parse, e) == Unusable || Usable(parse, e) == Value(value)
  {
    var whole, k := Render(value, 0), |e.text|;
    if k <= |whole| {
      assert e.text == whole[..k];
      CutOffIsOpen(value, k);
      assert k == |whole| ==> whole[..k] == whole;
    } else {
      assert e.text == Content(value);
    }
  }

  /** An interrupted write reads as the old value, as what the backup held, or as the new value. */
  lemma {:induction false} InterruptedReads(parse: Parser, before: Disk, value: Json, d: Disk)
    requires Strict(parse) && ReadsBack(parse, value) && Interrupted(before, Content(value), d)
    ensures Reading(parse, d) in {Reading(parse, before), Usable(parse, before.backup), Value(value)}
  {
    if PartOf(d.primary, Content(value)) {
      PartReads(parse, value, d.primary);
    }
  }

  /** Both copies hold the value. */
  predicate Completed(d: Disk, value: Json) {
    d.primary == d.backup == Holds(Content(value))
  }

  /** Crash safety: from a completed write of one value, an interrupted write of another reads as one of the two. */
  lemma {:induction false} CrashReadsOldOrNew(parse: Parser, before: Disk, earlier: Json, later: Json, d: Disk)
    requires Strict(parse) && ReadsBack(parse, earlier) && ReadsBack(parse, later)
    requires Completed(before, earlier) && Interrupted(before, Content(later), d)
    ensures Reading(parse, d) == Value(earlier) || Reading(parse, d) == Value(later)
  {
    InterruptedReads(parse, before, later, d);
  }

  /** Any start is safe exactly if the backup alone would read as the old value or already as the new one. */
  lemma {:induction false} SafeStart(parse: Parser, before: Disk, value: Json)
    requires Strict(parse) && ReadsBack(parse, value)
    ensures (forall d :: Interrupted(before, Content(value), d) ==>
               Reading(parse, d) == Reading(parse, before) || Reading(parse, d) == Value(value))
            <==> Usable(parse, before.backup) == Reading(parse, before)
                 || Usable(parse, before.backup) == Value(value)
  {
    var cut := before.(primary := Holds(""));
    assert Interrupted(before, Content(value), cut);
    forall d | Interrupted(before, Content(value), d)
      ensures Reading(parse, d) in {Reading(parse, before), Usable(parse, before.backup), Value(value)}
    {
      InterruptedReads(parse, before, value, d);
    }
  }

  /** As long as files can be moved into place, no start is unsafe. */
  lemma {:induction false} ReplacingIsSafe(parse: Parser, before: Disk, value: Json, d: Disk)
    requires ReadsBack(parse, value)
    requires Replacing(before, Primary, Content(value), d)
             || (d.primary == Holds(Content(value)) && Interrupted(before, Content(value), d))
    ensures Reading(parse, d) == Reading(parse, before) || Reading(parse, d) == Value(value)
  {
  }

  /** A write of a run: it completes with its backup, or it is interrupted while the first copy is not readable as new. */
  datatype Attempt = Complete(value: Json) | CutShort(value: Json, left: Disk)

  predicate Possible(parse: Parser, d: Disk, a: Attempt) {
    a.CutShort? ==>
      During(d, Primary, Content(a.value), a.left) && Usable(parse, a.left.primary) != Value(a.value)
  }

  function Result(d: Disk, a: Attempt): Disk {
    match a
    case Complete(value) => Disk(Holds(Content(value)), Holds(Content(value)), Absent)
    case CutShort(_, left) => left
  }

  function AfterAll(d: Disk, attempts: seq<Attempt>): Disk {
    if attempts == [] then d else Result(AfterAll(d, attempts[..|attempts| - 1]), attempts[|attempts| - 1])
  }

  function LastComplete(start: Json, attempts: seq<Attempt>): Json {
    if attempts == [] then start
    else
      var a := attempts[|attempts| - 1];
      if a.Complete? then a.value else LastComplete(start, attempts[..|attempts| - 1])
  }

  predicate AllReadBack(parse: Parser, attempts: seq<Attempt>) {
    forall a :: a in attempts ==> ReadsBack(parse, a.value)
  }

  predicate AllPossible(parse: Parser, d: Disk, attempts: seq<Attempt>) {
    attempts == [] ||
    var front, a := attempts[..|attempts| - 1], attempts[|attempts| - 1];
    AllPossible(parse, d, front) && Possible(parse, AfterAll(d, front), a)
  }

  /** Over any such run the last completed value is read back, from either copy. */
  lemma {:induction false} RunsReadLast(parse: Parser, d: Disk, start: Json, attempts: seq<Attempt>)
    requires Strict(parse) && ReadsBack(parse, start) && AllReadBack(parse, attempts)
    requires Completed(d, start) && AllPossible(parse, d, attempts)
    ensures var end, last := AfterAll(d, attempts), LastComplete(start, attempts);
            ReadsBack(parse, last) && Reading(parse, end) == Usable(parse, end.backup) == Value(last)
  {
    if attempts == [] {
    } else {
      var front, a := attempts[..|attempts| - 1], attempts[|attempts| - 1];
      RunsReadLast(parse, d, start, front);
      if a.CutShort? && PartOf(a.left.primary, Content(a.value)) {
        PartReads(parse, a.value, a.left.primary);
      }
    }
  }

  /** And a crash anywhere in the next write leaves the last completed value or the one being written. */
  lemma {:induction false} RunsAreCrashSafe(parse: Parser, d: Disk, start: Json, attempts: seq<Attempt>, next: Json,
                                            crashed: Disk)
    requires Strict(parse) && ReadsBack(parse, start) && AllReadBack(parse, attempts)
    requires Completed(d, start) && AllPossible(parse, d, attempts)
    requires ReadsBack(parse, next) && Interrupted(AfterAll(d, attempts), Content(next), crashed)
    ensures Reading(parse, crashed) == Value(LastComplete(start, attempts)) || Reading(parse, crashed) == Value(next)
  {
    RunsReadLast(parse, d, start, attempts);
    InterruptedReads(parse, AfterAll(d, attempts), next, crashed);
  }

  /** Two crashes in direct writes, the first in the backup, the second in the primary copy, lose everything. */
  lemma {:induction false} TwoCrashesLoseAll(parse: Parser, before: Disk, v0: Json, v1: Json, v2: Json)
    requires Strict(parse) && ReadsBack(parse, v0) && ReadsBack(parse, v1) && Completed(before, v0)
    ensures var once := before.(primary := Holds(Content(v1)), backup := Holds(""));
            var twice := once.(primary := Holds(""));
            && Interrupted(before, Content(v1), once) && Reading(parse, once) == Value(v1)
            && Interrupted(once, Content(v2), twice) && Reading(parse, twice) == Unusable
  {
  }
}
