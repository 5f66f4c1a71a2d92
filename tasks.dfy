/**
  The values the download manager passes around (task records, settings, the
  updates it reports) and a functional specification of what one turn of the
  worker loop reports for the task it takes off the queue.

  The media library is not visible here. What it does for one task is given as
  a `Library` value: whether the metadata lookup succeeds and with which title,
  which progress callbacks it makes during the transfer, and whether the
  transfer ends normally or raises. Where the user's cancel request for the
  running task lands is given as a `CancelPoint`.
*/
module Tasks {
  import opened Strings

  datatype Option<T> = None | Some(value: T)

  /** Task ids are opaque strings (a UUID in the application). */
  type TaskId = string

  /** `settings['mode']`: the worker only distinguishes `'audio'` from everything else. */
  datatype Mode = Video | Audio

  /** The settings dictionary built when a task is submitted. */
  datatype Settings = Settings(mode: Mode, quality: string, path: string)

  /** The record `{url, settings, id}` put on the queue. */
  datatype Task = Task(url: string, settings: Settings, id: TaskId)

  /** One call of the update callback: `(task_id, kind, value)`. */
  datatype Update =
    | Status(id: TaskId, text: string)
    | Progress(id: TaskId, fraction: real)
    | Title(id: TaskId, title: string)

  /**
    One call of the progress hook. For the `downloading` phase, `percent` is
    the library's `_percent_str` and `fraction` the result of parsing it and
    dividing by 100, or None when parsing raised.
  */
  datatype HookEvent =
    | Downloading(percent: string, fraction: Option<real>)
    | Finished
    | OtherPhase

  /** The outcome of `extract_info`: the info's title (if it has one), or the message it raised. */
  datatype Metadata = Info(title: Option<string>) | InfoFailed(message: string)

  /** What the media library does for one task. */
  datatype Library = Library(metadata: Metadata, events: seq<HookEvent>, failure: Option<string>)

  /**
    Where the user's `cancel_task` for the running task lands:
    - BeforeMetadata: before the flag test ahead of the metadata lookup;
    - BeforeDownload: after the title is reported, before the flag test ahead of the transfer;
    - BeforeHook(k): just before the k-th progress callback;
    - BeforeOutcome: after the transfer has returned or raised, before the flag is inspected.
    A point the run never reaches means the request arrives after this task is done.
  */
  datatype CancelPoint = NoCancel | BeforeMetadata | BeforeDownload | BeforeHook(k: nat) | BeforeOutcome

  /** How `_process_download` (or the progress hook) ends: it returns, or raises with a message. */
  datatype StepResult = Returned | Raised(message: string)

  /** What the download step reports, how it ends and whether the cancel flag is set at its end. */
  datatype Trace = Trace(updates: seq<Update>, result: StepResult, flag: bool)

  const UnknownTitle := "Unknown Title"
  const CancelledMessage := "Cancelled"
  const CancelledByUser := "Cancelled by user"

  const Initializing := "Initializing..."
  const Processing := "Processing..."
  const Completed := "Completed"
  const Cancelled := "Cancelled"
  const Error := "Error"

  /** The status texts that end a task's life. */
  predicate IsTerminal(text: string) {
    text == Completed || text == Cancelled || text == Error
  }

  /** Every status text reported while downloading starts with this. */
  const DownloadingPrefix := "Downloading... "

  /** The updates the progress hook reports for one event when the flag is clear. */
  function HookUpdates(id: TaskId, e: HookEvent): seq<Update> {
    match e
    case Downloading(percent, Some(f)) => [Progress(id, f), Status(id, DownloadingPrefix + percent)]
    case Downloading(_, None) => []
    case Finished => [Status(id, Processing)]
    case OtherPhase => []
  }

  /** The hook reports only about its own task, and never a terminal status. */
  lemma HookUpdatesFacts(id: TaskId, e: HookEvent)
    ensures forall u :: u in HookUpdates(id, e) ==> u.id == id
    ensures forall u :: u in HookUpdates(id, e) && u.Status? ==> !IsTerminal(u.text)
  {
  }

  /**
    The transfer from the i-th progress callback on, entered with the cancel
    flag clear: each callback first checks the flag, then reports.
  */
  function Transfer(id: TaskId, events: seq<HookEvent>, failure: Option<string>, at: CancelPoint, i: nat): Trace
    requires i <= |events|
    decreases |events| - i
  {
    if i == |events| then
      Trace([], if failure.Some? then Raised(failure.value) else Returned, at == BeforeOutcome)
    else if at == BeforeHook(i) then
      Trace([], Raised(CancelledByUser), true)
    else
      var rest := Transfer(id, events, failure, at, i + 1);
      Trace(HookUpdates(id, events[i]) + rest.updates, rest.result, rest.flag)
  }

  /** What the first `i` progress callbacks report when none of them raises. */
  function Emitted(id: TaskId, events: seq<HookEvent>, i: nat): seq<Update>
    requires i <= |events|
  {
    if i == 0 then [] else Emitted(id, events, i - 1) + HookUpdates(id, events[i - 1])
  }

  /**
    A transfer whose first `i` callbacks do not meet the cancel reports what
    those callbacks report, then goes on as the transfer from callback `i`.
  */
  lemma {:induction false} TransferFrom(id: TaskId, events: seq<HookEvent>, failure: Option<string>, at: CancelPoint, i: nat)
    requires i <= |events|
    requires !(at.BeforeHook? && at.k < i)
    ensures var rest := Transfer(id, events, failure, at, i);
      Transfer(id, events, failure, at, 0) == Trace(Emitted(id, events, i) + rest.updates, rest.result, rest.flag)
  {
    if i > 0 {
      TransferFrom(id, events, failure, at, i - 1);
      var prev := Transfer(id, events, failure, at, i - 1);
      var rest := Transfer(id, events, failure, at, i);
      var hs := HookUpdates(id, events[i - 1]);
      assert prev == Trace(hs + rest.updates, rest.result, rest.flag);
      assert Emitted(id, events, i) == Emitted(id, events, i - 1) + hs;
      assert Emitted(id, events, i - 1) + (hs + rest.updates) == Emitted(id, events, i) + rest.updates;
    } else {
      assert Emitted(id, events, 0) + Transfer(id, events, failure, at, 0).updates
          == Transfer(id, events, failure, at, 0).updates;
    }
  }

  /** A cancel landing before callback `i` ends the transfer there, after what the earlier callbacks reported. */
  lemma TransferCancelledAt(id: TaskId, events: seq<HookEvent>, failure: Option<string>, i: nat)
    requires i < |events|
    ensures Transfer(id, events, failure, BeforeHook(i), 0) == Trace(Emitted(id, events, i), Raised(CancelledByUser), true)
  {
    TransferFrom(id, events, failure, BeforeHook(i), i);
    assert Emitted(id, events, i) + [] == Emitted(id, events, i);
  }

  /** A transfer that meets no cancel at a callback reports every callback, then returns or raises. */
  lemma TransferRunsOut(id: TaskId, events: seq<HookEvent>, failure: Option<string>, at: CancelPoint)
    requires !(at.BeforeHook? && at.k < |events|)
    ensures Transfer(id, events, failure, at, 0)
         == Trace(Emitted(id, events, |events|), if failure.Some? then Raised(failure.value) else Returned, at == BeforeOutcome)
  {
    TransferFrom(id, events, failure, at, |events|);
    assert Emitted(id, events, |events|) + [] == Emitted(id, events, |events|);
  }

  /** `_process_download` for a task that has just become current with the flag clear. */
  function Process(id: TaskId, lib: Library, at: CancelPoint): Trace {
    if at == BeforeMetadata then
      Trace([], Raised(CancelledMessage), true)
    else
      match lib.metadata
      case InfoFailed(m) => Trace([], Raised(m), false)
      case Info(t) =>
        var title := Title(id, if t.Some? then t.value else UnknownTitle);
        if at == BeforeDownload then
          Trace([title], Raised(CancelledMessage), true)
        else
          var rest := Transfer(id, lib.events, lib.failure, at, 0);
          Trace([title] + rest.updates, rest.result, rest.flag)
  }

  /** The classification after the download step: returned, or raised with a message. */
  function Outcome(id: TaskId, result: StepResult, flag: bool): seq<Update> {
    match result
    case Returned =>
      if !flag then [Status(id, Completed), Progress(id, 1.0)] else [Status(id, Cancelled)]
    case Raised(m) =>
      if Contains(m, "Cancelled") then [Status(id, Cancelled)] else [Status(id, Error)]
  }

  /** Everything one worker turn reports for the task it dequeued. */
  function Iteration(task: Task, cancelled: set<TaskId>, lib: Library, at: CancelPoint): seq<Update> {
    if task.id in cancelled then
      [Status(task.id, Cancelled)]
    else
      var r := Process(task.id, lib, at);
      [Status(task.id, Initializing), Progress(task.id, 0.0)] + r.updates + Outcome(task.id, r.result, r.flag)
  }

  /** The turn for a task not cancelled in advance: start updates, the download step's, its classification. */
  lemma IterationRun(task: Task, cancelled: set<TaskId>, lib: Library, at: CancelPoint)
    requires task.id !in cancelled
    ensures var r := Process(task.id, lib, at);
      Iteration(task, cancelled, lib, at)
        == [Status(task.id, Initializing), Progress(task.id, 0.0)] + r.updates + Outcome(task.id, r.result, r.flag)
  {
  }

  function Min(a: nat, b: nat): nat {
    if a < b then a else b
  }

  /** The reports of consecutive worker turns, one block per dequeued task, one turn per entry of `schedule`. */
  function Blocks(tasks: seq<Task>, cancelled: set<TaskId>, schedule: seq<(Library, CancelPoint)>): (bs: seq<seq<Update>>)
    ensures |bs| == Min(|tasks|, |schedule|)
    decreases |tasks|
  {
    if tasks == [] || schedule == [] then []
    else [Iteration(tasks[0], cancelled, schedule[0].0, schedule[0].1)] + Blocks(tasks[1..], cancelled, schedule[1..])
  }

  function Concat(bs: seq<seq<Update>>): seq<Update> {
    if bs == [] then [] else bs[0] + Concat(bs[1..])
  }

  /**
    Everything the worker reports over consecutive turns for the queue `tasks`
    with no other call in between (so the cancelled set stays the same).
  */
  function Drain(tasks: seq<Task>, cancelled: set<TaskId>, schedule: seq<(Library, CancelPoint)>): seq<Update> {
    Concat(Blocks(tasks, cancelled, schedule))
  }

  /**
    The cancel flag after the same consecutive turns, starting from `flag`: a
    processed task leaves the flag its download step leaves, and a skipped task
    or an empty queue leaves it as it was.
  */
  function FlagAfter(tasks: seq<Task>, cancelled: set<TaskId>, schedule: seq<(Library, CancelPoint)>, flag: bool): bool
    decreases |tasks|
  {
    if tasks == [] || schedule == [] then flag
    else
      var next := if tasks[0].id in cancelled then flag else Process(tasks[0].id, schedule[0].0, schedule[0].1).flag;
      FlagAfter(tasks[1..], cancelled, schedule[1..], next)
  }

  // ---------------------------------------------------------------------------
  // Reference definition: the terminal status as a decision table
  // ---------------------------------------------------------------------------

  /**
    Whether the user's cancel lands at a point the run reaches and is seen
    there: at the flag test before the lookup; once the lookup has succeeded,
    at the flag test before the transfer or at a progress callback; and, when
    the transfer has returned, at the flag test after it. After a raised
    transfer the `except` branch does not look at the flag.
  */
  predicate CancelObserved(lib: Library, at: CancelPoint) {
    || at == BeforeMetadata
    || (&& lib.metadata.Info?
        && (|| at == BeforeDownload
            || (at.BeforeHook? && at.k < |lib.events|)
            || (at == BeforeOutcome && lib.failure.None?)))
  }

  /** How a message raised by the library is classified. */
  function ClassifyMessage(m: string): (status: string)
    ensures IsTerminal(status) && status != Completed
    ensures status == Cancelled <==> Contains(m, "Cancelled")
  {
    if Contains(m, "Cancelled") then Cancelled else Error
  }

  /**
    The terminal status of a dequeued task, read off in the order the run meets
    its checkpoints: cancelled before start; cancel seen before the lookup; the
    lookup's own failure; cancel seen before the transfer or at a callback; the
    transfer's own failure; cancel seen by the flag test; success.
  */
  function ExpectedStatus(id: TaskId, cancelled: set<TaskId>, lib: Library, at: CancelPoint): (status: string)
    ensures IsTerminal(status)
    ensures status == Completed <==>
      id !in cancelled && lib.metadata.Info? && lib.failure.None? && !CancelObserved(lib, at)
    ensures status == Error ==> lib.metadata.InfoFailed? || lib.failure.Some?
    ensures id in cancelled ==> status == Cancelled
  {
    if id in cancelled || at == BeforeMetadata then Cancelled
    else if lib.metadata.InfoFailed? then ClassifyMessage(lib.metadata.message)
    else if at == BeforeDownload || (at.BeforeHook? && at.k < |lib.events|) then Cancelled
    else if lib.failure.Some? then ClassifyMessage(lib.failure.value)
    else if at == BeforeOutcome then Cancelled
    else Completed
  }

  /** The final updates for a terminal status: "Completed" is followed by progress 1.0. */
  function TerminalUpdates(id: TaskId, status: string): seq<Update> {
    if status == Completed then [Status(id, Completed), Progress(id, 1.0)] else [Status(id, status)]
  }

  /** The number of terminal status updates in `us`. */
  function CountTerminal(us: seq<Update>): nat {
    if us == [] then 0
    else (if us[0].Status? && IsTerminal(us[0].text) then 1 else 0) + CountTerminal(us[1..])
  }

  // ---------------------------------------------------------------------------
  // Lemmas
  // ---------------------------------------------------------------------------

  lemma {:induction false} CountTerminalAppend(a: seq<Update>, b: seq<Update>)
    ensures CountTerminal(a + b) == CountTerminal(a) + CountTerminal(b)
    decreases |a|
  {
    if a == [] {
      assert a + b == b;
    } else {
      assert (a + b)[1..] == a[1..] + b;
      CountTerminalAppend(a[1..], b);
    }
  }

  lemma {:induction false} CountTerminalNone(us: seq<Update>)
    requires forall u :: u in us && u.Status? ==> !IsTerminal(u.text)
    ensures CountTerminal(us) == 0
    decreases |us|
  {
    if us != [] {
      assert us[0] in us;
      assert forall u :: u in us[1..] ==> u in us;
      CountTerminalNone(us[1..]);
    }
  }

  lemma CancelledMessagesClassify()
    ensures Contains(CancelledMessage, "Cancelled")
    ensures Contains(CancelledByUser, "Cancelled")
  {
  }

  /** The terminal status the transfer leads to, from callback i on. */
  function TransferStatus(lib: Library, at: CancelPoint, i: nat): string {
    if at.BeforeHook? && i <= at.k < |lib.events| then Cancelled
    else if lib.failure.Some? then ClassifyMessage(lib.failure.value)
    else if at == BeforeOutcome then Cancelled
    else Completed
  }

  /**
    The transfer reports only progress for its own task, never a terminal
    status, and the classification of how it ends is the decision table's.
  */
  lemma {:induction false} TransferFacts(id: TaskId, lib: Library, at: CancelPoint, i: nat)
    requires i <= |lib.events|
    ensures var t := Transfer(id, lib.events, lib.failure, at, i);
      && (forall u :: u in t.updates ==> u.id == id)
      && (forall u :: u in t.updates && u.Status? ==> !IsTerminal(u.text))
      && Outcome(id, t.result, t.flag) == TerminalUpdates(id, TransferStatus(lib, at, i))
    decreases |lib.events| - i
  {
    CancelledMessagesClassify();
    if i < |lib.events| && at != BeforeHook(i) {
      TransferFacts(id, lib, at, i + 1);
      var rest := Transfer(id, lib.events, lib.failure, at, i + 1);
      var hs := HookUpdates(id, lib.events[i]);
      HookUpdatesFacts(id, lib.events[i]);
      assert forall u :: u in hs + rest.updates ==> u in hs || u in rest.updates;
    }
  }

  /** The download step reports only about its own task, and never a terminal status. */
  lemma ProcessFacts(id: TaskId, lib: Library, at: CancelPoint)
    ensures var r := Process(id, lib, at);
      && (forall u :: u in r.updates ==> u.id == id)
      && (forall u :: u in r.updates && u.Status? ==> !IsTerminal(u.text))
  {
    if at != BeforeMetadata && lib.metadata.Info? && at != BeforeDownload {
      TransferFacts(id, lib, at, 0);
    }
  }

  /** One worker turn reports only about the task it dequeued. */
  lemma IterationIds(task: Task, cancelled: set<TaskId>, lib: Library, at: CancelPoint)
    ensures forall u :: u in Iteration(task, cancelled, lib, at) ==> u.id == task.id
  {
    if task.id !in cancelled {
      var r := Process(task.id, lib, at);
      ProcessFacts(task.id, lib, at);
      var head := [Status(task.id, Initializing), Progress(task.id, 0.0)];
      var out := Outcome(task.id, r.result, r.flag);
      assert forall u :: u in head + r.updates ==> u.id == task.id;
      assert forall u :: u in out ==> u.id == task.id;
      assert Iteration(task, cancelled, lib, at) == (head + r.updates) + out;
    }
  }

  lemma TerminalUpdatesCount(id: TaskId, status: string)
    requires IsTerminal(status)
    ensures CountTerminal(TerminalUpdates(id, status)) == 1
  {
    var t := TerminalUpdates(id, status);
    if status == Completed {
      assert t[1..] == [Progress(id, 1.0)];
      assert t[1..][1..] == [];
      assert CountTerminal(t[1..]) == 0;
    } else {
      assert t[1..] == [];
    }
  }

  /** The classification of a task not cancelled in advance is the decision table's. */
  lemma OutcomeMatchesTable(id: TaskId, cancelled: set<TaskId>, lib: Library, at: CancelPoint)
    requires id !in cancelled
    ensures var r := Process(id, lib, at);
      Outcome(id, r.result, r.flag) == TerminalUpdates(id, ExpectedStatus(id, cancelled, lib, at))
  {
    CancelledMessagesClassify();
    if at != BeforeMetadata && lib.metadata.Info? && at != BeforeDownload {
      TransferFacts(id, lib, at, 0);
    }
  }

  /** A task not cancelled in advance gets its start updates, the step's, then exactly one terminal status. */
  lemma IterationCount(task: Task, cancelled: set<TaskId>, lib: Library, at: CancelPoint)
    requires task.id !in cancelled
    ensures CountTerminal(Iteration(task, cancelled, lib, at)) == 1
  {
    var id := task.id;
    var r := Process(id, lib, at);
    var head := [Status(id, Initializing), Progress(id, 0.0)];
    var out := Outcome(id, r.result, r.flag);
    OutcomeMatchesTable(id, cancelled, lib, at);
    ProcessFacts(id, lib, at);
    TerminalUpdatesCount(id, ExpectedStatus(id, cancelled, lib, at));
    CountTerminalAppend(head, r.updates);
    CountTerminalAppend(head + r.updates, out);
    CountTerminalNone(head);
    CountTerminalNone(r.updates);
    IterationRun(task, cancelled, lib, at);
  }

  /** Every dequeued task, skipped or processed, receives exactly one terminal status. */
  lemma IterationOneTerminal(task: Task, cancelled: set<TaskId>, lib: Library, at: CancelPoint)
    ensures CountTerminal(Iteration(task, cancelled, lib, at)) == 1
  {
    if task.id in cancelled {
      assert Iteration(task, cancelled, lib, at)[1..] == [];
    } else {
      IterationCount(task, cancelled, lib, at);
    }
  }

  /**
    One worker turn reports only about its own task, reports exactly one
    terminal status, ends with the terminal updates of the decision table, and
    for a task not cancelled in advance starts with "Initializing..." and
    progress 0.0.
  */
  lemma IterationFacts(task: Task, cancelled: set<TaskId>, lib: Library, at: CancelPoint)
    ensures var us := Iteration(task, cancelled, lib, at);
      var tail := TerminalUpdates(task.id, ExpectedStatus(task.id, cancelled, lib, at));
      && (forall u :: u in us ==> u.id == task.id)
      && CountTerminal(us) == 1
      && |tail| <= |us| && us[|us| - |tail|..] == tail
      && (task.id !in cancelled ==> us[..2] == [Status(task.id, Initializing), Progress(task.id, 0.0)])
  {
    var id := task.id;
    var us := Iteration(task, cancelled, lib, at);
    IterationIds(task, cancelled, lib, at);
    if id in cancelled {
      assert us == [Status(id, Cancelled)];
      assert us[1..] == [];
    } else {
      var r := Process(id, lib, at);
      var head := [Status(id, Initializing), Progress(id, 0.0)];
      var out := Outcome(id, r.result, r.flag);
      IterationRun(task, cancelled, lib, at);
      OutcomeMatchesTable(id, cancelled, lib, at);
      IterationCount(task, cancelled, lib, at);
      assert us == (head + r.updates) + out;
    }
  }

  /** A drain is the first task's turn followed by the drain of the rest. */
  lemma DrainCons(tasks: seq<Task>, cancelled: set<TaskId>, schedule: seq<(Library, CancelPoint)>)
    requires tasks != [] && schedule != []
    ensures Drain(tasks, cancelled, schedule)
         == Iteration(tasks[0], cancelled, schedule[0].0, schedule[0].1) + Drain(tasks[1..], cancelled, schedule[1..])
  {
  }

  /** Appending a drain to what came before, one turn at a time. */
  lemma DrainStep(tasks: seq<Task>, cancelled: set<TaskId>, schedule: seq<(Library, CancelPoint)>, before: seq<Update>)
    requires tasks != [] && schedule != []
    ensures (before + Iteration(tasks[0], cancelled, schedule[0].0, schedule[0].1)) + Drain(tasks[1..], cancelled, schedule[1..])
         == before + Drain(tasks, cancelled, schedule)
  {
    DrainCons(tasks, cancelled, schedule);
    var turn := Iteration(tasks[0], cancelled, schedule[0].0, schedule[0].1);
    assert (before + turn) + Drain(tasks[1..], cancelled, schedule[1..])
        == before + (turn + Drain(tasks[1..], cancelled, schedule[1..]));
  }

  /** The flag after a drain is the flag after the rest of the queue, from the flag the first turn leaves. */
  lemma FlagAfterCons(tasks: seq<Task>, cancelled: set<TaskId>, schedule: seq<(Library, CancelPoint)>, flag: bool)
    requires tasks != [] && schedule != []
    ensures FlagAfter(tasks, cancelled, schedule, flag)
         == FlagAfter(tasks[1..], cancelled, schedule[1..],
              if tasks[0].id in cancelled then flag else Process(tasks[0].id, schedule[0].0, schedule[0].1).flag)
  {
  }

  /** Each dequeued task contributes exactly one terminal status to the worker's reports. */
  lemma {:induction false} DrainTerminalCount(tasks: seq<Task>, cancelled: set<TaskId>, schedule: seq<(Library, CancelPoint)>)
    ensures CountTerminal(Drain(tasks, cancelled, schedule)) == Min(|tasks|, |schedule|)
    decreases |tasks|
  {
    if tasks != [] && schedule != [] {
      DrainCons(tasks, cancelled, schedule);
      IterationOneTerminal(tasks[0], cancelled, schedule[0].0, schedule[0].1);
      DrainTerminalCount(tasks[1..], cancelled, schedule[1..]);
      CountTerminalAppend(Iteration(tasks[0], cancelled, schedule[0].0, schedule[0].1),
                          Drain(tasks[1..], cancelled, schedule[1..]));
    }
  }

  /** Every element of a concatenation comes from one of its blocks. */
  lemma {:induction false} ConcatOwner(bs: seq<seq<Update>>, p: nat)
    requires p < |Concat(bs)|
    ensures exists k :: 0 <= k < |bs| && Concat(bs)[p] in bs[k]
  {
    if p >= |bs[0]| {
      ConcatOwner(bs[1..], p - |bs[0]|);
      var k :| 0 <= k < |bs| - 1 && Concat(bs[1..])[p - |bs[0]|] in bs[1..][k];
      assert Concat(bs)[p] in bs[k + 1];
    } else {
      assert Concat(bs)[p] in bs[0];
    }
  }

  /** Task ids on the queue are pairwise distinct (they are fresh UUIDs). */
  ghost predicate DistinctIds(tasks: seq<Task>) {
    forall a, b :: 0 <= a < b < |tasks| ==> tasks[a].id != tasks[b].id
  }

  /** The k-th block reports only about the k-th task. */
  ghost predicate BlocksAboutTasks(bs: seq<seq<Update>>, tasks: seq<Task>) {
    |bs| <= |tasks| && forall k, u :: 0 <= k < |bs| && u in bs[k] ==> u.id == tasks[k].id
  }

  /**
    In a concatenation of blocks about tasks with distinct ids, an update
    about an earlier task comes before one about a later task.
  */
  lemma {:induction false} ConcatInOrder(bs: seq<seq<Update>>, tasks: seq<Task>, p: nat, q: nat, i: nat, j: nat)
    requires BlocksAboutTasks(bs, tasks) && DistinctIds(tasks)
    requires i < j < |bs|
    requires p < |Concat(bs)| && q < |Concat(bs)|
    requires Concat(bs)[p].id == tasks[i].id && Concat(bs)[q].id == tasks[j].id
    ensures p < q
  {
    var c := Concat(bs);
    var rest := Concat(bs[1..]);
    assert c == bs[0] + rest;
    assert q >= |bs[0]|;
    if i > 0 {
      assert p >= |bs[0]|;
      assert BlocksAboutTasks(bs[1..], tasks[1..]) by {
        forall k, u | 0 <= k < |bs| - 1 && u in bs[1..][k]
          ensures u.id == tasks[1..][k].id
        {
          assert u in bs[k + 1];
        }
      }
      ConcatInOrder(bs[1..], tasks[1..], p - |bs[0]|, q - |bs[0]|, i - 1, j - 1);
    } else if p >= |bs[0]| {
      // c[p] is about the first task, yet it lies in a later block.
      ConcatOwner(bs[1..], p - |bs[0]|);
      assert false;
    }
  }

  /** The k-th block of a drain is the k-th task's turn. */
  lemma {:induction false} BlocksAt(tasks: seq<Task>, cancelled: set<TaskId>, schedule: seq<(Library, CancelPoint)>, k: nat)
    requires k < Min(|tasks|, |schedule|)
    ensures Blocks(tasks, cancelled, schedule)[k] == Iteration(tasks[k], cancelled, schedule[k].0, schedule[k].1)
    decreases k
  {
    if k > 0 {
      BlocksAt(tasks[1..], cancelled, schedule[1..], k - 1);
    }
  }

  /** The k-th block of a drain reports only about the k-th task. */
  lemma BlocksAbout(tasks: seq<Task>, cancelled: set<TaskId>, schedule: seq<(Library, CancelPoint)>)
    ensures BlocksAboutTasks(Blocks(tasks, cancelled, schedule), tasks)
  {
    var bs := Blocks(tasks, cancelled, schedule);
    forall k | 0 <= k < |bs|
      ensures forall u: Update :: u in bs[k] ==> u.id == tasks[k].id
    {
      BlocksAt(tasks, cancelled, schedule, k);
      IterationIds(tasks[k], cancelled, schedule[k].0, schedule[k].1);
    }
  }

  /**
    FIFO: with distinct ids, every update about an earlier task is reported
    before every update about a later one.
  */
  lemma DrainInOrder(tasks: seq<Task>, cancelled: set<TaskId>, schedule: seq<(Library, CancelPoint)>,
                     p: nat, q: nat, i: nat, j: nat)
    requires DistinctIds(tasks)
    requires i < j < Min(|tasks|, |schedule|)
    requires p < |Drain(tasks, cancelled, schedule)| && q < |Drain(tasks, cancelled, schedule)|
    requires Drain(tasks, cancelled, schedule)[p].id == tasks[i].id
    requires Drain(tasks, cancelled, schedule)[q].id == tasks[j].id
    ensures p < q
  {
    BlocksAbout(tasks, cancelled, schedule);
    ConcatInOrder(Blocks(tasks, cancelled, schedule), tasks, p, q, i, j);
  }
}
