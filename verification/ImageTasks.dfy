/**
 The life cycle of image tasks: who works on what, what survives cleaning up and restarting,
 and whose tasks a caller gets to see.
 */
module ImageTasks {

  datatype Status = Queued | Running | Success | Error

  /** A task record; `timedOut` says whether its error text is that of a timeout. */
  datatype Task = Task(owner: string, id: string, status: Status, timedOut: bool, conversation: string, updatedAt: int)

  type Tasks = map<string, Task>

  predicate Unfinished(t: Task) {
    t.status == Queued || t.status == Running
  }

  /** A task stays in the list while it is unfinished or its last update is at most the retention days, or one day, ago. */
  predicate Lasts(t: Task, now: int, retentionDays: int) {
    || t.status == Queued || t.status == Running
    || now - t.updatedAt <= 24 * 3600 * retentionDays || now - t.updatedAt <= 24 * 3600
  }

  /** `after` is `before` without the tasks that do not last. */
  ghost predicate OnlyLasting(before: Tasks, after: Tasks, now: int, retentionDays: int) {
    && (forall k :: k in after <==> k in before && Lasts(before[k], now, retentionDays))
    && (forall k :: k in after ==> after[k] == before[k])
  }

  /** What a new process finds of a record: the conversation is gone, and an unfinished task has failed, not timed out. */
  function Reread(t: Task, now: int): Task {
    match t.status
    case Success => Task(t.owner, t.id, Success, t.timedOut, "", t.updatedAt)
    case Error => Task(t.owner, t.id, Error, t.timedOut, "", t.updatedAt)
    case Queued => Task(t.owner, t.id, Error, false, "", now)
    case Running => Task(t.owner, t.id, Error, false, "", now)
  }

  /** The tasks of a new process: those saved that last, reread. */
  ghost predicate Reloaded(saved: Tasks, tasks: Tasks, now: int, retentionDays: int) {
    && (forall k :: k in tasks <==> k in saved && Lasts(saved[k], now, retentionDays))
    && (forall k :: k in tasks ==> tasks[k] == Reread(saved[k], now))
  }

  /** The characters that stripping takes off both ends of a text. */
  predicate Blank(c: char) {
    '\t' <= c <= '\r' || '\U{1C}' <= c <= ' ' || c in "\U{85}\U{A0}\U{1680}"
    || '\U{2000}' <= c <= '\U{200A}' || c in "\U{2028}\U{2029}\U{202F}\U{205F}\U{3000}"
  }

  /** Ids come stripped: every request strips the id it is given. */
  predicate Stripped(s: string) {
    s == "" || (!Blank(s[0]) && !Blank(s[|s| - 1]))
  }

  predicate AllStripped(ids: seq<string>) {
    forall i :: 0 <= i < |ids| ==> Stripped(ids[i])
  }

  function TaskKey(owner: string, id: string): string {
    owner + ":" + id
  }

  /** What can go wrong when a thread is to be started: the save before it, or the start itself. */
  datatype Fault = NoFault | SaveFails | StartFails

  /** The tasks in memory, the saved file, and the threads that still owe a task its terminal update. */
  datatype State = State(tasks: Tasks, saved: Tasks, workers: multiset<string>)

  predicate Expired(t: Task, now: int, retentionDays: int) {
    !Unfinished(t) && t.updatedAt < now - (if retentionDays < 1 then 1 else retentionDays) * 86400
  }

  function Cleaned(tasks: Tasks, now: int, retentionDays: int): Tasks {
    map k | k in tasks && !Expired(tasks[k], now, retentionDays) :: tasks[k]
  }

  /** What a record keeps when it is written and read back. */
  function Forgetting(t: Task): Task {
    t.(conversation := "")
  }

  /** What the file keeps of the tasks: the conversation is not read back. */
  function Forgotten(tasks: Tasks): Tasks {
    map k | k in tasks :: Forgetting(tasks[k])
  }

  function Interrupted(t: Task, now: int): Task {
    if Unfinished(t) then t.(status := Error, timedOut := false, updatedAt := now) else t
  }

  function Recovered(tasks: Tasks, now: int): Tasks {
    map k | k in tasks :: Interrupted(tasks[k], now)
  }

  /** The file after a save that succeeds or fails. */
  function Kept(s: State, tasks: Tasks, saved: bool): Tasks {
    if saved then tasks else s.saved
  }

  /** The task that a submission finds or makes. */
  predicate Makes(s: State, owner: string, id: string, now: int, days: int) {
    id != "" && TaskKey(owner, id) !in Cleaned(s.tasks, now, days)
  }

  function AfterSubmit(s: State, owner: string, id: string, fault: Fault, now: int, days: int): State {
    var kept := Cleaned(s.tasks, now, days);
    var key := TaskKey(owner, id);
    if id == "" then s
    else if key in kept then State(kept, Kept(s, kept, kept != s.tasks && fault != SaveFails), s.workers)
    else
      var tasks := kept[key := Task(owner, id, Queued, false, "", now)];
      State(tasks, Kept(s, tasks, fault != SaveFails),
            if fault == NoFault then s.workers + multiset{key} else s.workers)
  }

  /** A record is replaced in memory, and the file is written if that succeeds. */
  function Updated(s: State, key: string, t: Task, saved: bool): State {
    var tasks := s.tasks[key := t];
    State(tasks, Kept(s, tasks, saved), s.workers)
  }

  /** A worker's first update; if it cannot be saved the thread ends there. */
  function AfterStart(s: State, key: string, saved: bool, now: int): State {
    var s' := if key !in s.tasks then s
              else Updated(s, key, s.tasks[key].(status := Running, timedOut := false, updatedAt := now), saved);
    if saved || key !in s.tasks then s' else s'.(workers := s.workers - multiset{key})
  }

  /** A progress report, which may come at any time, even late. */
  function AfterProgress(s: State, key: string, saved: bool, now: int): State {
    if key !in s.tasks then s else Updated(s, key, s.tasks[key].(updatedAt := now), saved)
  }

  datatype Ending = Finished | Failed(timedOut: bool, conversation: string)

  function Ended(t: Task, ending: Ending, now: int): Task {
    match ending
    case Finished => t.(status := Success, timedOut := false, updatedAt := now)
    case Failed(timedOut, conversation) =>
      t.(status := Error, timedOut := timedOut, updatedAt := now,
         conversation := if conversation != "" then conversation else t.conversation)
  }

  /** A success that cannot be saved ends as an error, by an update of its own. */
  predicate Overturned(ending: Ending, saved: bool) {
    ending.Finished? && !saved
  }

  function Outcome(t: Task, ending: Ending, saved: bool, now: int): Task {
    if Overturned(ending, saved) then Ended(Ended(t, Finished, now), Failed(false, ""), now) else Ended(t, ending, now)
  }

  /** A worker's terminal update; `savedAgain` is for the second one, after a success that could not be saved. */
  function AfterEnd(s: State, key: string, ending: Ending, saved: bool, savedAgain: bool, now: int): State {
    var kept := if Overturned(ending, saved) then savedAgain else saved;
    var s' := if key !in s.tasks then s else Updated(s, key, Outcome(s.tasks[key], ending, saved, now), kept);
    s'.(workers := s.workers - multiset{key})
  }

  predicate Resumable(t: Task) {
    t.status == Error && t.timedOut && t.conversation != ""
  }

  predicate Resumes(s: State, owner: string, id: string) {
    TaskKey(owner, id) in s.tasks && Resumable(s.tasks[TaskKey(owner, id)])
  }

  function AfterResume(s: State, owner: string, id: string, fault: Fault, now: int): State {
    if !Resumes(s, owner, id) then s
    else
      var key := TaskKey(owner, id);
      var s' := Updated(s, key, s.tasks[key].(status := Running, timedOut := false, updatedAt := now), fault != SaveFails);
      if fault == NoFault then s'.(workers := s.workers + multiset{key}) else s'
  }

  function AfterList(s: State, saved: bool, now: int, days: int): State {
    var kept := Cleaned(s.tasks, now, days);
    State(kept, Kept(s, kept, kept != s.tasks && saved), s.workers)
  }

  /** A new process: all threads are gone, unfinished tasks are ended. */
  function AfterRestart(s: State, now: int, days: int): State {
    var loaded := Forgotten(s.saved);
    var tasks := Cleaned(Recovered(loaded, now), now, days);
    State(tasks, Kept(s, tasks, tasks != loaded), multiset{})
  }

  /** `Die` is a thread that ends, for whatever reason, without its terminal update. */
  datatype Op = Submit(owner: string, id: string, fault: Fault) | Start(key: string, saved: bool)
              | Progress(key: string, saved: bool) | End(key: string, ending: Ending, saved: bool, savedAgain: bool) | Die(key: string)
              | Resume(owner: string, id: string, fault: Fault) | List(saved: bool) | Restart

  /** Status updates come from threads that still owe the last one; an owner's name is never empty. */
  predicate Enabled(s: State, op: Op) {
    match op
    case Submit(owner, id, _) => owner != "" && Stripped(id)
    case Start(key, _) => key in s.workers
    case End(key, _, _, _) => key in s.workers
    case Die(key) => key in s.workers
    case _ => true
  }

  function Next(s: State, op: Op, now: int, days: int): State {
    match op
    case Submit(owner, id, fault) => AfterSubmit(s, owner, id, fault, now, days)
    case Start(key, saved) => AfterStart(s, key, saved, now)
    case Progress(key, saved) => AfterProgress(s, key, saved, now)
    case End(key, ending, saved, savedAgain) => AfterEnd(s, key, ending, saved, savedAgain, now)
    case Die(key) => s.(workers := s.workers - multiset{key})
    case Resume(owner, id, fault) => AfterResume(s, owner, id, fault, now)
    case List(saved) => AfterList(s, saved, now, days)
    case Restart => AfterRestart(s, now, days)
  }

  /** The key of the task for which a step starts a worker, or tries to. */
  predicate Starts(s: State, op: Op, now: int, days: int, key: string) {
    match op
    case Submit(owner, id, _) => key == TaskKey(owner, id) && Makes(s, owner, id, now, days)
    case Resume(owner, id, _) => key == TaskKey(owner, id) && Resumes(s, owner, id)
    case _ => false
  }

  /** A step after which a worker that has been started, or should have been, is gone with its task unfinished. */
  predicate Kills(s: State, op: Op, now: int, days: int, key: string) {
    match op
    case Submit(_, _, fault) => Starts(s, op, now, days, key) && fault != NoFault
    case Resume(_, _, fault) => Starts(s, op, now, days, key) && fault != NoFault
    case Start(k, saved) => k == key && !saved
    case Die(k) => k == key
    case _ => false
  }

  predicate Busy(s: State, key: string) {
    key in s.tasks && Unfinished(s.tasks[key])
  }

  /** One live worker for an unfinished task, unless it died; none for any other key. */
  predicate OneWorker(s: State, key: string, dead: bool) {
    s.workers[key] == (if Busy(s, key) && !dead then 1 else 0) && (dead ==> Busy(s, key))
  }

  predicate Filed(tasks: Tasks, key: string) {
    key in tasks ==>
      var t := tasks[key];
      key == TaskKey(t.owner, t.id) && t.owner != "" && t.id != "" && Stripped(t.id)
  }

  /** The file says of a key what memory says, but for conversations. */
  predicate OnDisk(s: State, key: string) {
    && (key in s.tasks <==> key in s.saved)
    && (key in s.tasks ==> Forgetting(s.tasks[key]) == Forgetting(s.saved[key]))
  }

  /** Records stand under their own keys, in memory and in the file. */
  ghost predicate InPlace(s: State) {
    (forall key :: Filed(s.tasks, key)) && (forall key :: Filed(s.saved, key))
  }

  ghost predicate Valid(s: State) {
    InPlace(s) && forall key :: OneWorker(s, key, false)
  }

  /** Cleaning up takes no task away from its worker, nor a stranded one out of the list. */
  lemma {:induction false} CleanupKeepsBusy(s: State, key: string, now: int, days: int)
    requires Busy(s, key)
    ensures key in Cleaned(s.tasks, now, days) && Cleaned(s.tasks, now, days)[key] == s.tasks[key]
  {
  }

  /** Whether the worker of `key` is dead after one more step. */
  function DeadNext(s: State, op: Op, now: int, days: int, key: string, dead: bool): bool {
    if op.Restart? then false
    else if Kills(s, op, now, days, key) then true
    else if Starts(s, op, now, days, key) then false
    else dead
  }

  lemma {:induction false} SubmitKeepsOneWorker(s: State, owner: string, id: string, fault: Fault, now: int, days: int,
                                                key: string, dead: bool)
    requires OneWorker(s, key, dead)
    ensures OneWorker(AfterSubmit(s, owner, id, fault, now, days), key,
                      if key == TaskKey(owner, id) && Makes(s, owner, id, now, days) then fault != NoFault else dead)
  {
    if Busy(s, key) {
      CleanupKeepsBusy(s, key, now, days);
    }
  }

  lemma {:induction false} ResumeKeepsOneWorker(s: State, owner: string, id: string, fault: Fault, now: int,
                                                key: string, dead: bool)
    requires OneWorker(s, key, dead)
    ensures OneWorker(AfterResume(s, owner, id, fault, now), key,
                      if key == TaskKey(owner, id) && Resumes(s, owner, id) then fault != NoFault else dead)
  {
  }

  lemma {:induction false} UpdateKeepsOneWorker(s: State, op: Op, now: int, days: int, key: string, dead: bool)
    requires OneWorker(s, key, dead) && Enabled(s, op) && (op.Start? || op.Progress? || op.End? || op.Die?)
    ensures OneWorker(Next(s, op, now, days), key, DeadNext(s, op, now, days, key, dead))
  {
  }

  lemma {:induction false} StepKeepsOneWorker(s: State, op: Op, now: int, days: int, key: string, dead: bool)
    requires OneWorker(s, key, dead) && Enabled(s, op)
    ensures OneWorker(Next(s, op, now, days), key, DeadNext(s, op, now, days, key, dead))
  {
    match op
    case Submit(owner, id, fault) => SubmitKeepsOneWorker(s, owner, id, fault, now, days, key, dead);
    case Resume(owner, id, fault) => ResumeKeepsOneWorker(s, owner, id, fault, now, key, dead);
    case List(saved) =>
      if Busy(s, key) {
        CleanupKeepsBusy(s, key, now, days);
      }
    case Restart =>
    case _ => UpdateKeepsOneWorker(s, op, now, days, key, dead);
  }

  lemma {:induction false} SubmitKeepsFiled(s: State, owner: string, id: string, fault: Fault, now: int, days: int, key: string)
    requires Filed(s.tasks, key) && Filed(s.saved, key) && owner != "" && Stripped(id)
    ensures var s' := AfterSubmit(s, owner, id, fault, now, days); Filed(s'.tasks, key) && Filed(s'.saved, key)
  {
  }

  lemma {:induction false} RestartKeepsFiled(s: State, now: int, days: int, key: string)
    requires Filed(s.saved, key)
    ensures var s' := AfterRestart(s, now, days); Filed(s'.tasks, key) && Filed(s'.saved, key)
  {
  }

  lemma {:induction false} UpdateKeepsFiled(s: State, k: string, t: Task, saved: bool, key: string)
    requires Filed(s.tasks, key) && Filed(s.saved, key)
    requires k in s.tasks && t.owner == s.tasks[k].owner && t.id == s.tasks[k].id
    ensures var s' := Updated(s, k, t, saved); Filed(s'.tasks, key) && Filed(s'.saved, key)
  {
  }

  lemma {:induction false} StepKeepsFiled(s: State, op: Op, now: int, days: int, key: string)
    requires Filed(s.tasks, key) && Filed(s.saved, key) && Enabled(s, op)
    ensures Filed(Next(s, op, now, days).tasks, key) && Filed(Next(s, op, now, days).saved, key)
  {
    match op
    case Submit(owner, id, fault) => SubmitKeepsFiled(s, owner, id, fault, now, days, key);
    case Restart => RestartKeepsFiled(s, now, days, key);
    case Start(k, saved) =>
      if k in s.tasks {
        UpdateKeepsFiled(s, k, s.tasks[k].(status := Running, timedOut := false, updatedAt := now), saved, key);
      }
    case Progress(k, saved) =>
      if k in s.tasks {
        UpdateKeepsFiled(s, k, s.tasks[k].(updatedAt := now), saved, key);
      }
    case End(k, ending, saved, savedAgain) =>
      if k in s.tasks {
        UpdateKeepsFiled(s, k, Outcome(s.tasks[k], ending, saved, now),
                         if Overturned(ending, saved) then savedAgain else saved, key);
      }
    case Resume(owner, id, fault) =>
      if Resumes(s, owner, id) {
        var k := TaskKey(owner, id);
        UpdateKeepsFiled(s, k, s.tasks[k].(status := Running, timedOut := false, updatedAt := now), fault != SaveFails, key);
      }
    case List(_) =>
    case Die(_) =>
  }

  /** With saves that succeed the file stays up to date. */
  lemma {:induction false} StepKeepsOnDisk(s: State, op: Op, now: int, days: int, key: string)
    requires OnDisk(s, key)
    requires op.Submit? || op.Resume? ==> op.fault != SaveFails
    requires op.Start? || op.Progress? || op.End? || op.List? ==> op.saved
    ensures OnDisk(Next(s, op, now, days), key)
  {
  }

  datatype Event = Event(op: Op, now: int, days: int)

  function Run(s: State, events: seq<Event>): State {
    if events == [] then s
    else
      var e := events[|events| - 1];
      Next(Run(s, events[..|events| - 1]), e.op, e.now, e.days)
  }

  predicate AllEnabled(s: State, events: seq<Event>) {
    events == [] ||
    var front := events[..|events| - 1];
    AllEnabled(s, front) && Enabled(Run(s, front), events[|events| - 1].op)
  }

  /** The worker of `key` died, or could not be started, at or after its last start, and no restart followed. */
  predicate Died(s: State, events: seq<Event>, key: string) {
    if events == [] then false
    else
      var front, e := events[..|events| - 1], events[|events| - 1];
      DeadNext(Run(s, front), e.op, e.now, e.days, key, Died(s, front, key))
  }

  /** In every run a task has its one worker exactly if it is unfinished and that worker has not died. */
  lemma {:induction false} RunsKeepOneWorker(s: State, events: seq<Event>, key: string)
    requires OneWorker(s, key, false) && AllEnabled(s, events)
    ensures OneWorker(Run(s, events), key, Died(s, events, key))
  {
    if events == [] {
    } else {
      var front, e := events[..|events| - 1], events[|events| - 1];
      RunsKeepOneWorker(s, front, key);
      StepKeepsOneWorker(Run(s, front), e.op, e.now, e.days, key, Died(s, front, key));
    }
  }

  lemma {:induction false} RunsKeepInPlace(s: State, events: seq<Event>)
    requires InPlace(s) && AllEnabled(s, events)
    ensures InPlace(Run(s, events))
  {
    if events == [] {
    } else {
      var front, e := events[..|events| - 1], events[|events| - 1];
      var mid := Run(s, front);
      RunsKeepInPlace(s, front);
      forall key ensures Filed(Run(s, events).tasks, key) && Filed(Run(s, events).saved, key) {
        assert Filed(mid.tasks, key) && Filed(mid.saved, key);
        StepKeepsFiled(mid, e.op, e.now, e.days, key);
      }
    }
  }

  /** A task that is unfinished without a worker. */
  predicate Stranded(s: State, key: string) {
    Busy(s, key) && s.workers[key] == 0
  }

  /** Over all runs: a task is stranded exactly if its worker died after its last start and no restart followed. */
  lemma {:induction false} StrandedIffDied(s: State, events: seq<Event>, key: string)
    requires OneWorker(s, key, false) && AllEnabled(s, events)
    ensures Stranded(Run(s, events), key) <==> Died(s, events, key)
  {
    RunsKeepOneWorker(s, events, key);
  }

  /** Nothing but a restart gets a stranded task out of its state. */
  lemma {:induction false} StrandedStays(s: State, op: Op, now: int, days: int, key: string)
    requires Stranded(s, key) && Enabled(s, op)
    ensures Stranded(Next(s, op, now, days), key) <==> !op.Restart?
  {
    CleanupKeepsBusy(s, key, now, days);
    StepKeepsOneWorker(s, op, now, days, key, true);
  }

  const NOTHING := State(map[], map[], multiset{})

  /** The failing run: the record is saved, the thread does not start, and submitting again only shows the record. */
  lemma {:induction false} UnstartedIsStranded(owner: string, id: string, now: int, days: int)
    requires owner != "" && id != "" && Stripped(id)
    ensures var once := AfterSubmit(NOTHING, owner, id, StartFails, now, days);
            && Stranded(once, TaskKey(owner, id))
            && AfterSubmit(once, owner, id, NoFault, now, days) == once
            && AfterResume(once, owner, id, NoFault, now) == once
  {
    var once := AfterSubmit(NOTHING, owner, id, StartFails, now, days);
    assert Cleaned(NOTHING.tasks, now, days) == map[];
    assert Cleaned(once.tasks, now, days) == once.tasks;
  }

  /** Submitting a task again neither changes it nor starts a second worker. */
  lemma {:induction false} SubmitTwice(s: State, owner: string, id: string, now: int, days: int)
    requires id != ""
    ensures var once := AfterSubmit(s, owner, id, NoFault, now, days);
            AfterSubmit(once, owner, id, NoFault, now, days) == once
  {
    var once := AfterSubmit(s, owner, id, NoFault, now, days);
    assert Cleaned(once.tasks, now, days) == once.tasks;
  }

  /** After a restart nothing is unfinished, and nothing can be resumed. */
  lemma {:induction false} RestartEndsAll(s: State, now: int, days: int, key: string)
    requires key in AfterRestart(s, now, days).tasks
    ensures var t := AfterRestart(s, now, days).tasks[key];
            !Unfinished(t) && !Resumable(t) && key in s.saved
            && (Unfinished(s.saved[key]) <==> t.status == Error && s.saved[key].status != Error)
  {
  }

  // ---- Which tasks succeeded ----

  /** The step sets the status of the task `key` in memory: to success, or to anything else. */
  predicate Settles(s: State, op: Op, now: int, days: int, key: string) {
    match op
    case Start(k, _) => k == key
    case End(k, _, _, _) => k == key
    case _ => Starts(s, op, now, days, key)
  }

  /** The step writes the file as far as it gets to it. */
  predicate Writes(s: State, op: Op, now: int, days: int) {
    match op
    case Submit(owner, id, fault) =>
      id != "" && fault != SaveFails && (Makes(s, owner, id, now, days) || Cleaned(s.tasks, now, days) != s.tasks)
    case Start(k, saved) => k in s.tasks && saved
    case Progress(k, saved) => k in s.tasks && saved
    case End(k, ending, saved, savedAgain) => k in s.tasks && (saved || (ending == Finished && savedAgain))
    case Resume(owner, id, fault) => Resumes(s, owner, id) && fault != SaveFails
    case List(saved) => saved && Cleaned(s.tasks, now, days) != s.tasks
    case Die(_) => false
    case Restart => false
  }

  /** Whether the last thing that befell a task was a finished worker whose result was saved: in memory, in the file. */
  datatype Won = Won(inMemory: bool, inFile: bool)

  function WonNext(s: State, op: Op, now: int, days: int, key: string, won: Won): Won {
    if op.Restart? then Won(won.inFile, won.inFile)
    else
      var inMemory := if Settles(s, op, now, days, key) then op.End? && op.ending == Finished && op.saved else won.inMemory;
      Won(inMemory, if Writes(s, op, now, days) then inMemory else won.inFile)
  }

  predicate SucceededIff(tasks: Tasks, key: string, won: bool) {
    key in tasks ==> (tasks[key].status == Success <==> won)
  }

  /** The records called a success, in memory and in the file, are those that `won` says. */
  predicate Honest(s: State, key: string, won: Won) {
    SucceededIff(s.tasks, key, won.inMemory) && SucceededIff(s.saved, key, won.inFile)
  }

  lemma {:induction false} EndKeepsHonest(s: State, k: string, ending: Ending, saved: bool, savedAgain: bool, now: int, days: int,
                                          key: string, won: Won)
    requires Honest(s, key, won)
    ensures var op := End(k, ending, saved, savedAgain);
            Honest(Next(s, op, now, days), key, WonNext(s, op, now, days, key, won))
  {
  }

  lemma {:induction false} SubmitKeepsHonest(s: State, owner: string, id: string, fault: Fault, now: int, days: int, key: string,
                                             won: Won)
    requires Honest(s, key, won)
    ensures var op := Submit(owner, id, fault); Honest(Next(s, op, now, days), key, WonNext(s, op, now, days, key, won))
  {
  }

  lemma {:induction false} CleaningKeepsHonest(s: State, op: Op, now: int, days: int, key: string, won: Won)
    requires Honest(s, key, won) && (op.List? || op.Restart?)
    ensures Honest(Next(s, op, now, days), key, WonNext(s, op, now, days, key, won))
  {
  }

  lemma {:induction false} StepKeepsHonest(s: State, op: Op, now: int, days: int, key: string, won: Won)
    requires Honest(s, key, won)
    ensures Honest(Next(s, op, now, days), key, WonNext(s, op, now, days, key, won))
  {
    match op
    case Submit(owner, id, fault) => SubmitKeepsHonest(s, owner, id, fault, now, days, key, won);
    case End(k, ending, saved, savedAgain) => EndKeepsHonest(s, k, ending, saved, savedAgain, now, days, key, won);
    case List(_) => CleaningKeepsHonest(s, op, now, days, key, won);
    case Restart => CleaningKeepsHonest(s, op, now, days, key, won);
    case _ =>
  }

  function WonOver(s: State, events: seq<Event>, key: string, won: Won): Won {
    if events == [] then won
    else
      var front, e := events[..|events| - 1], events[|events| - 1];
      WonNext(Run(s, front), e.op, e.now, e.days, key, WonOver(s, front, key, won))
  }

  /**
   Over all runs, a task is called a success exactly if the last thing that befell it was a worker that finished and
   whose result was saved; in the file, if that was so when the file was last written.
   */
  lemma {:induction false} SuccessIffWon(s: State, events: seq<Event>, key: string, won: Won)
    requires Honest(s, key, won)
    ensures Honest(Run(s, events), key, WonOver(s, events, key, won))
  {
    if events == [] {
    } else {
      var front, e := events[..|events| - 1], events[|events| - 1];
      SuccessIffWon(s, front, key, won);
      StepKeepsHonest(Run(s, front), e.op, e.now, e.days, key, WonOver(s, front, key, won));
    }
  }

  /** The record `r` that an ending leaves of `t`, when the first save of it succeeds or not. */
  predicate EndsAs(t: Task, ending: Ending, saved: bool, now: int, r: Task) {
    && r.owner == t.owner && r.id == t.id && r.updatedAt == now
    && match ending
       case Finished => r.status == (if saved then Success else Error) && !r.timedOut && r.conversation == t.conversation
       case Failed(timedOut, conversation) =>
         && r.status == Error && r.timedOut == timedOut
         && r.conversation == if conversation != "" then conversation else t.conversation
  }

  /** A worker's last update: the record, the file if one of its saves succeeds, and the worker is gone. */
  predicate RightEnd(s: State, s': State, key: string, ending: Ending, saved: bool, savedAgain: bool, now: int) {
    && s'.workers == s.workers - multiset{key}
    && if key in s.tasks then
         && key in s'.tasks && EndsAs(s.tasks[key], ending, saved, now, s'.tasks[key])
         && s'.tasks == s.tasks[key := s'.tasks[key]]
         && s'.saved == if saved || (ending == Finished && savedAgain) then s'.tasks else s.saved
       else s'.tasks == s.tasks && s'.saved == s.saved
  }

  lemma EndIsExact(s: State, key: string, ending: Ending, saved: bool, savedAgain: bool, now: int)
    ensures RightEnd(s, AfterEnd(s, key, ending, saved, savedAgain, now), key, ending, saved, savedAgain, now)
  {
  }

  /**
   A submission: a blank id changes nothing; else what does not last goes, and unless the task is there
   already it is queued, saved and given a worker as far as that succeeds.
   */
  ghost predicate RightSubmission(s: State, s': State, owner: string, id: string, fault: Fault, now: int, days: int) {
    var key := TaskKey(owner, id);
    var makes := id != "" && !(key in s.tasks && Lasts(s.tasks[key], now, days));
    && (id == "" ==> s' == s)
    && (id != "" ==> OnlyLasting(s.tasks, if makes then s'.tasks - {key} else s'.tasks, now, days))
    && (makes ==> key in s'.tasks && s'.tasks[key] == Task(owner, id, Queued, false, "", now))
    && (makes ==> s'.saved == if fault == SaveFails then s.saved else s'.tasks)
    && (!makes && id != "" ==> s'.saved == if s'.tasks != s.tasks && fault != SaveFails then s'.tasks else s.saved)
    && s'.workers == s.workers + if makes && fault == NoFault then multiset{key} else multiset{}
  }

  lemma SubmitIsExact(s: State, owner: string, id: string, fault: Fault, now: int, days: int)
    ensures RightSubmission(s, AfterSubmit(s, owner, id, fault, now, days), owner, id, fault, now, days)
  {
    var kept, key := Cleaned(s.tasks, now, days), TaskKey(owner, id);
    if key !in kept {
      assert kept[key := Task(owner, id, Queued, false, "", now)] - {key} == kept;
    }
  }

  lemma RestartIsExact(saved: Tasks, now: int, days: int)
    ensures Reloaded(saved, AfterRestart(State(map[], saved, multiset{}), now, days).tasks, now, days)
  {
  }

  /** Polling can be resumed exactly after a failure by timeout with a conversation, reported or known before. */
  lemma EndedResumes(t: Task, ending: Ending, saved: bool, now: int, r: Task)
    requires EndsAs(t, ending, saved, now, r)
    ensures Resumable(r) <==> ending.Failed? && ending.timedOut && (ending.conversation != "" || t.conversation != "")
  {
  }

  // ---- Whose tasks ----

  predicate NoColon(s: string) {
    ':' !in s
  }

  /** One name, followed by a colon, starts the other, with no white space directly behind that colon. */
  predicate Reaches(a: string, b: string) {
    a + ":" <= b && (|b| > |a| + 1 ==> !Blank(b[|a| + 1]))
  }

  lemma {:induction false} SharedKeyReaches(a: string, i: string, b: string, j: string)
    requires TaskKey(a, i) == TaskKey(b, j) && |a| <= |b| && Stripped(i)
    ensures a == b ==> i == j
    ensures a != b ==> Reaches(a, b)
  {
    var key := TaskKey(a, i);
    assert a == key[..|a|] && b == key[..|b|];
    assert i == key[|a| + 1..] && j == key[|b| + 1..];
    if |a| < |b| {
      assert a + ":" == key[..|a| + 1];
      assert |b| > |a| + 1 ==> b[|a| + 1] == key[|a| + 1] == i[0];
    }
  }

  predicate ShareKey(a: string, i: string, b: string, j: string) {
    i != "" && j != "" && Stripped(i) && Stripped(j) && TaskKey(a, i) == TaskKey(b, j)
  }

  lemma {:induction false} ReachingShares(a: string, b: string) returns (i: string, j: string)
    requires Reaches(a, b)
    ensures ShareKey(a, i, b, j)
  {
    j := "x";
    i := b[|a| + 1..] + ":" + j;
    assert b == a + ":" + b[|a| + 1..];
    assert TaskKey(b, j) == a + ":" + (b[|a| + 1..] + ":" + j);
  }

  /**
   Two owners can come to share a key exactly if one's name, followed by a colon, starts the other's, with no
   white space directly behind that colon.
   */
  lemma {:induction false} SharedKey(a: string, b: string)
    requires a != b
    ensures (exists i, j :: ShareKey(a, i, b, j)) <==> Reaches(a, b) || Reaches(b, a)
  {
    if i, j :| ShareKey(a, i, b, j) {
      if |a| <= |b| {
        SharedKeyReaches(a, i, b, j);
      } else {
        SharedKeyReaches(b, j, a, i);
      }
    }
    if Reaches(a, b) {
      var i, j := ReachingShares(a, b);
      assert ShareKey(a, i, b, j);
    }
    if Reaches(b, a) {
      var j, i := ReachingShares(b, a);
      assert ShareKey(a, i, b, j);
    }
  }

  /** A name that another one, followed by a colon, starts has a colon. */
  lemma {:induction false} ReachedHasColon(a: string, b: string)
    requires Reaches(a, b)
    ensures !NoColon(b)
  {
    assert b[|a|] == ':';
  }

  function NonBlank(ids: seq<string>): seq<string> {
    if ids == [] then []
    else
      var front, last := NonBlank(ids[..|ids| - 1]), ids[|ids| - 1];
      if last == "" then front else front + [last]
  }

  /** The requested tasks that exist, in the order of the request. */
  function Found(tasks: Tasks, owner: string, ids: seq<string>): seq<Task> {
    if ids == [] then []
    else
      var front, key := Found(tasks, owner, ids[..|ids| - 1]), TaskKey(owner, ids[|ids| - 1]);
      if key in tasks then front + [tasks[key]] else front
  }

  function Missing(tasks: Tasks, owner: string, ids: seq<string>): seq<string> {
    if ids == [] then []
    else
      var front, last := Missing(tasks, owner, ids[..|ids| - 1]), ids[|ids| - 1];
      if TaskKey(owner, last) in tasks then front else front + [last]
  }

  /** The owner's tasks under these keys, each once, the latest update first. */
  predicate Listed(tasks: Tasks, owner: string, keys: seq<string>) {
    && (forall i :: 0 <= i < |keys| ==> keys[i] in tasks && tasks[keys[i]].owner == owner)
    && (forall i, j :: 0 <= i < j < |keys| ==>
          keys[i] != keys[j] && tasks[keys[i]].updatedAt >= tasks[keys[j]].updatedAt)
  }

  function ItemsOf(tasks: Tasks, keys: seq<string>): seq<Task>
    requires forall i :: 0 <= i < |keys| ==> keys[i] in tasks
  {
    seq(|keys|, i requires 0 <= i < |keys| => tasks[keys[i]])
  }

  function InsertKey(tasks: Tasks, keys: seq<string>, key: string): seq<string>
    requires key in tasks && forall i :: 0 <= i < |keys| ==> keys[i] in tasks
  {
    if keys == [] || tasks[keys[0]].updatedAt < tasks[key].updatedAt then [key] + keys
    else [keys[0]] + InsertKey(tasks, keys[1..], key)
  }

  lemma {:induction false} InsertKeySorts(tasks: Tasks, owner: string, keys: seq<string>, key: string)
    requires Listed(tasks, owner, keys) && key in tasks && key !in keys && tasks[key].owner == owner
    ensures Listed(tasks, owner, InsertKey(tasks, keys, key))
    ensures forall k :: k in InsertKey(tasks, keys, key) <==> k in keys || k == key
  {
    if keys != [] && tasks[keys[0]].updatedAt >= tasks[key].updatedAt {
      InsertKeySorts(tasks, owner, keys[1..], key);
      var rest := InsertKey(tasks, keys[1..], key);
      assert keys == [keys[0]] + keys[1..];
      forall i | 0 <= i < |rest|
        ensures rest[i] != keys[0] && tasks[keys[0]].updatedAt >= tasks[rest[i]].updatedAt
      {
        assert rest[i] in rest;
      }
    }
  }

  method OwnKeys(tasks: Tasks, owner: string) returns (keys: seq<string>)
    ensures Listed(tasks, owner, keys)
    ensures forall k :: k in keys <==> k in tasks && tasks[k].owner == owner
  {
    keys := [];
    var left := tasks.Keys;
    while left != {}
      invariant left <= tasks.Keys && Listed(tasks, owner, keys)
      invariant forall k :: k in keys <==> k in tasks && k !in left && tasks[k].owner == owner
      decreases left
    {
      var k :| k in left;
      if tasks[k].owner == owner {
        InsertKeySorts(tasks, owner, keys, k);
        keys := InsertKey(tasks, keys, k);
      }
      left := left - {k};
    }
  }

  datatype Answer = IdRequired | Accepted(task: Task) | Raised

  datatype Resumption = NotFound | NotFailed | NotTimedOut | NoConversation | Resumed(task: Task) | ResumeRaised

  class ImageTaskService {
    var tasks: Tasks
    var saved: Tasks
    ghost var workers: multiset<string>

    ghost function View(): State
      reads this
    {
      State(tasks, saved, workers)
    }

    /** A new process: load what was saved, end what was unfinished, drop what is old. */
    constructor (saved: Tasks, now: int, days: int)
      ensures View() == AfterRestart(State(map[], saved, multiset{}), now, days)
      ensures Reloaded(saved, tasks, now, days) && workers == multiset{}
    {
      this.saved := saved;
      var loaded := Forgotten(saved);
      tasks, workers := loaded, multiset{};
      new;
      RecoverUnfinished(now);
      var cleaned := Cleanup(now, days);
      if tasks != loaded {
        this.saved := tasks;
      }
      RestartIsExact(saved, now, days);
    }

    method RecoverUnfinished(now: int)
      modifies this`tasks
      ensures tasks == Recovered(old(tasks), now)
    {
      var left := tasks.Keys;
      while left != {}
        invariant left <= old(tasks).Keys == tasks.Keys
        invariant forall k :: k in tasks ==> tasks[k] == if k in left then old(tasks)[k] else Interrupted(old(tasks)[k], now)
        decreases left
      {
        var k :| k in left;
        var t := tasks[k];
        if t.status == Queued || t.status == Running {
          tasks := tasks[k := t.(status := Error, timedOut := false, updatedAt := now)];
        }
        left := left - {k};
      }
      assert tasks == Recovered(old(tasks), now);
    }

    method Cleanup(now: int, retentionDays: int) returns (changed: bool)
      modifies this`tasks
      ensures tasks == Cleaned(old(tasks), now, retentionDays)
      ensures changed <==> tasks != old(tasks)
      ensures OnlyLasting(old(tasks), tasks, now, retentionDays)
    {
      var days := if retentionDays < 1 then 1 else retentionDays;
      var cutoff := now - days * 86400;
      var removed := set k | k in tasks && tasks[k].status in {Success, Error} && tasks[k].updatedAt < cutoff;
      tasks := tasks - removed;
      changed := removed != {};
      assert tasks == Cleaned(old(tasks), now, retentionDays);
      assert changed ==> tasks.Keys != old(tasks).Keys;
    }

    method Submit(owner: string, id: string, fault: Fault, now: int, days: int) returns (answer: Answer)
      modifies this
      ensures View() == AfterSubmit(old(View()), owner, id, fault, now, days)
      ensures answer == IdRequired <==> id == ""
      ensures answer.Accepted? ==> TaskKey(owner, id) in tasks && answer.task == tasks[TaskKey(owner, id)]
      ensures answer.Raised? ==> fault != NoFault
      ensures Makes(old(View()), owner, id, now, days) ==> (answer.Raised? <==> fault != NoFault)
      ensures RightSubmission(old(View()), View(), owner, id, fault, now, days)
    {
      SubmitIsExact(View(), owner, id, fault, now, days);
      if id == "" {
        return IdRequired;
      }
      var key := TaskKey(owner, id);
      var cleaned := Cleanup(now, days);
      if key in tasks {
        if cleaned && fault == SaveFails {
          return Raised;
        }
        if cleaned {
          saved := tasks;
        }
        return Accepted(tasks[key]);
      }
      var task := Task(owner, id, Queued, false, "", now);
      tasks := tasks[key := task];
      if fault == SaveFails {
        return Raised;
      }
      saved := tasks;
      if fault == StartFails {
        return Raised;
      }
      workers := workers + multiset{key};
      answer := Accepted(task);
    }

    /** Replaces a record that exists; `failed` says that the file could not be written. */
    method UpdateTask(key: string, task: Task, canSave: bool) returns (failed: bool)
      modifies this`tasks, this`saved
      ensures State(tasks, saved, workers)
              == if key in old(tasks) then Updated(old(View()), key, task, canSave) else old(View())
      ensures failed <==> key in old(tasks) && !canSave
    {
      if key !in tasks {
        return false;
      }
      tasks := tasks[key := task];
      if canSave {
        saved := tasks;
      }
      failed := !canSave;
    }

    /** A worker's first update, a progress report, and its last update, each one locked section. */
    method StartTask(key: string, canSave: bool, now: int)
      modifies this
      ensures View() == AfterStart(old(View()), key, canSave, now)
      ensures key in old(tasks) ==>
                var t := old(tasks)[key];
                && tasks == old(tasks)[key := Task(t.owner, t.id, Running, false, t.conversation, now)]
                && (if canSave then saved == tasks && workers == old(workers)
                    else saved == old(saved) && workers == old(workers) - multiset{key})
      ensures key !in old(tasks) ==> View() == old(View())
    {
      if key in tasks {
        var failed := UpdateTask(key, tasks[key].(status := Running, timedOut := false, updatedAt := now), canSave);
        if failed {
          workers := workers - multiset{key};
        }
      }
    }

    method ReportProgress(key: string, canSave: bool, now: int)
      modifies this
      ensures View() == AfterProgress(old(View()), key, canSave, now)
      ensures key in old(tasks) ==>
                var t := old(tasks)[key];
                && tasks == old(tasks)[key := Task(t.owner, t.id, t.status, t.timedOut, t.conversation, now)]
                && saved == (if canSave then tasks else old(saved)) && workers == old(workers)
      ensures key !in old(tasks) ==> View() == old(View())
    {
      if key in tasks {
        var failed := UpdateTask(key, tasks[key].(updatedAt := now), canSave);
      }
    }

    method EndTask(key: string, ending: Ending, canSave: bool, canSaveAgain: bool, now: int)
      modifies this
      ensures View() == AfterEnd(old(View()), key, ending, canSave, canSaveAgain, now)
      ensures RightEnd(old(View()), View(), key, ending, canSave, canSaveAgain, now)
    {
      EndIsExact(View(), key, ending, canSave, canSaveAgain, now);
      if key in tasks {
        var task := tasks[key];
        match ending {
          case Finished =>
            task := task.(status := Success, timedOut := false);
          case Failed(timedOut, conversation) =>
            task := task.(status := Error, timedOut := timedOut);
            if conversation != "" {
              task := task.(conversation := conversation);
            }
        }
        var failed := UpdateTask(key, task.(updatedAt := now), canSave);
        if failed && ending.Finished? {
          failed := UpdateTask(key, tasks[key].(status := Error, timedOut := false, updatedAt := now), canSaveAgain);
        }
      }
      workers := workers - multiset{key};
    }

    /** The requested tasks, or all of the owner's, the latest update first; `canSave` is for the clean-up before. */
    method ListTasks(owner: string, ids: seq<string>, canSave: bool, now: int, days: int)
      returns (items: seq<Task>, missing: seq<string>, ghost keys: seq<string>)
      modifies this
      ensures View() == AfterList(old(View()), canSave, now, days)
      ensures OnlyLasting(old(tasks), tasks, now, days) && workers == old(workers)
      ensures saved == if tasks != old(tasks) && canSave then tasks else old(saved)
      ensures NonBlank(ids) != [] ==>
                items == Found(tasks, owner, NonBlank(ids)) && missing == Missing(tasks, owner, NonBlank(ids))
      ensures NonBlank(ids) == [] ==>
                && missing == [] && Listed(tasks, owner, keys) && items == ItemsOf(tasks, keys)
                && (forall k :: k in keys <==> k in tasks && tasks[k].owner == owner)
    {
      var cleaned := Cleanup(now, days);
      if cleaned && canSave {
        saved := tasks;
      }
      items, missing, keys := [], [], [];
      var requested := NonBlank(ids);
      if requested != [] {
        for i := 0 to |requested|
          invariant items == Found(tasks, owner, requested[..i]) && missing == Missing(tasks, owner, requested[..i])
        {
          assert requested[..i + 1][..i] == requested[..i];
          var key := TaskKey(owner, requested[i]);
          if key !in tasks {
            missing := missing + [requested[i]];
          } else {
            items := items + [tasks[key]];
          }
        }
        assert requested[..|requested|] == requested;
        return;
      }
      var own := OwnKeys(tasks, owner);
      items, keys := ItemsOf(tasks, own), own;
    }

    method ResumePoll(owner: string, id: string, fault: Fault, now: int) returns (answer: Resumption)
      modifies this
      ensures View() == AfterResume(old(View()), owner, id, fault, now)
      ensures var key := TaskKey(owner, id);
              var resumes := key in old(tasks)
                             && old(tasks)[key].status == Error && old(tasks)[key].timedOut && old(tasks)[key].conversation != "";
              if !resumes then View() == old(View())
              else
                var t := old(tasks)[key];
                && tasks == old(tasks)[key := Task(t.owner, t.id, Running, false, t.conversation, now)]
                && saved == (if fault == SaveFails then old(saved) else tasks)
                && workers == old(workers) + if fault == NoFault then multiset{key} else multiset{}
      ensures var key := TaskKey(owner, id);
              && (answer.NotFound? <==> key !in old(tasks))
              && (answer.NotFailed? <==> key in old(tasks) && old(tasks)[key].status != Error)
              && (answer.NotTimedOut? <==> key in old(tasks) && old(tasks)[key].status == Error && !old(tasks)[key].timedOut)
              && (answer.Resumed? <==> Resumes(old(View()), owner, id) && fault == NoFault)
              && (answer.ResumeRaised? <==> Resumes(old(View()), owner, id) && fault != NoFault)
              && (answer.Resumed? ==> key in tasks && answer.task == tasks[key])
    {
      var key := TaskKey(owner, id);
      if key !in tasks {
        return NotFound;
      }
      var task := tasks[key];
      if task.status != Error {
        return NotFailed;
      }
      if !task.timedOut {
        return NotTimedOut;
      }
      if task.conversation == "" {
        return NoConversation;
      }
      var running := task.(status := Running, timedOut := false, updatedAt := now);
      var failed := UpdateTask(key, running, fault != SaveFails);
      if failed || fault == StartFails {
        return ResumeRaised;
      }
      workers := workers + multiset{key};
      answer := Resumed(running);
    }
  }

  /** Every task in memory belongs to one of the owners. */
  predicate OwnedBy(s: State, owners: set<string>) {
    forall k :: k in s.tasks ==> s.tasks[k].owner in owners
  }

  predicate Apart(owners: set<string>) {
    forall a, b :: a in owners && b in owners && a != b ==> !Reaches(a, b)
  }

  predicate OwnOnly(tasks: Tasks, owner: string, ids: seq<string>) {
    forall t :: t in Found(tasks, owner, ids) ==> t.owner == owner
  }

  /** With names apart, a caller's key only ever finds the caller's own task. */
  lemma {:induction false} OwnTasksOnly(s: State, owners: set<string>, owner: string, id: string)
    requires InPlace(s) && OwnedBy(s, owners) && Apart(owners) && owner in owners && Stripped(id)
    requires TaskKey(owner, id) in s.tasks
    ensures s.tasks[TaskKey(owner, id)].owner == owner && s.tasks[TaskKey(owner, id)].id == id
  {
    var key := TaskKey(owner, id);
    var t := s.tasks[key];
    assert Filed(s.tasks, key);
    if |owner| <= |t.owner| {
      SharedKeyReaches(owner, id, t.owner, t.id);
    } else {
      SharedKeyReaches(t.owner, t.id, owner, id);
    }
  }

  lemma {:induction false} FoundAreOwn(s: State, owners: set<string>, owner: string, ids: seq<string>)
    requires InPlace(s) && OwnedBy(s, owners) && Apart(owners) && owner in owners && AllStripped(ids)
    ensures forall t :: t in Found(s.tasks, owner, ids) ==> t.owner == owner && t.id in ids
  {
    if ids == [] {
    } else {
      var front, last := ids[..|ids| - 1], ids[|ids| - 1];
      FoundAreOwn(s, owners, owner, front);
      if TaskKey(owner, last) in s.tasks {
        OwnTasksOnly(s, owners, owner, last);
      }
    }
  }

  /** One task that another's request by id finds. */
  lemma {:induction false} ReachedIsFound(owners: set<string>, a: string, b: string)
    returns (s: State, ids: seq<string>)
    requires a in owners && b in owners && a != b && b != "" && Reaches(a, b)
    ensures Valid(s) && OwnedBy(s, owners) && AllStripped(ids) && !OwnOnly(s.tasks, a, ids)
  {
    var i, j := ReachingShares(a, b);
    s := AfterSubmit(NOTHING, b, j, NoFault, 0, 1);
    assert Cleaned(NOTHING.tasks, 0, 1) == map[];
    ids := [i];
    assert ids[..0] == [] && Found(s.tasks, a, []) == [];
    assert Found(s.tasks, a, ids) == [s.tasks[TaskKey(b, j)]];
    assert s.tasks[TaskKey(b, j)] in Found(s.tasks, a, ids);
  }

  /**
   Requests by id return only the caller's tasks, in every state over these owners, exactly if no owner's name,
   followed by a colon, starts another's with no white space directly behind that colon.
   */
  lemma {:induction false} ListsAreOwn(owners: set<string>)
    requires "" !in owners
    ensures (forall s, owner, ids :: Valid(s) && OwnedBy(s, owners) && owner in owners && AllStripped(ids) ==>
               OwnOnly(s.tasks, owner, ids))
            <==> Apart(owners)
  {
    if Apart(owners) {
      forall s, owner, ids | Valid(s) && OwnedBy(s, owners) && owner in owners && AllStripped(ids)
        ensures OwnOnly(s.tasks, owner, ids)
      {
        FoundAreOwn(s, owners, owner, ids);
      }
    } else {
      var a, b :| a in owners && b in owners && a != b && Reaches(a, b);
      var s, ids := ReachedIsFound(owners, a, b);
      assert Valid(s) && OwnedBy(s, owners) && !OwnOnly(s.tasks, a, ids);
    }
  }

  /** A blank behind the colon keeps two owners apart. */
  lemma {:induction false} BlankKeepsApart(a: string, rest: string)
    ensures !exists i, j :: ShareKey(a, i, a + ": " + rest, j)
  {
    var b := a + ": " + rest;
    assert b[|a| + 1] == ' ' && !Reaches(a, b) && !Reaches(b, a);
    SharedKey(a, b);
  }
}
