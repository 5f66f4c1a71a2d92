/**
  The download manager: a FIFO of task records, the set of ids the user has
  cancelled, the task being processed and the cancel flag, plus the sequence of
  updates handed to the update callback so far.

  One turn of the worker loop is one atomic `Step`. The media library's
  behaviour for the task and the moment at which the user's cancel lands are
  parameters of the turn.
*/
module Manager {
  import opened Strings
  import opened Tasks
  import opened Formats

  class DownloadManager {
    var queue: seq<Task>
    var currentTask: Option<Task>
    var cancelledIds: set<TaskId>
    var cancelFlag: bool
    /** Every `(task_id, kind, value)` passed to the update callback, oldest first. */
    var log: seq<Update>

    /** Between turns of the worker no task is current. */
    predicate Idle()
      reads this
    {
      currentTask == None
    }

    constructor ()
      ensures queue == [] && currentTask == None && cancelledIds == {} && !cancelFlag && log == []
    {
      queue := [];
      currentTask := None;
      cancelledIds := {};
      cancelFlag := false;
      log := [];
    }

    /** Enqueue the record `{url, settings, id}` at the tail. */
    method AddTask(url: string, settings: Settings, taskId: TaskId)
      modifies this`queue
      ensures queue == old(queue) + [Task(url, settings, taskId)]
    {
      queue := queue + [Task(url, settings, taskId)];
    }

    /** Record the cancellation; raise the flag only when the task is the one running. */
    method CancelTask(taskId: TaskId)
      modifies this`cancelledIds, this`cancelFlag
      ensures cancelledIds == old(cancelledIds) + {taskId}
      ensures cancelFlag == (old(cancelFlag) || (currentTask.Some? && currentTask.value.id == taskId))
    {
      cancelledIds := cancelledIds + {taskId};
      if currentTask.Some? && currentTask.value.id == taskId {
        cancelFlag := true;
      }
    }

    /** The progress hook: raise when the flag is set, otherwise report the event. */
    method ProgressHook(event: HookEvent, taskId: TaskId) returns (r: StepResult)
      modifies this`log
      ensures cancelFlag ==> r == Raised(CancelledByUser) && log == old(log)
      ensures !cancelFlag ==> r == Returned && log == old(log) + HookUpdates(taskId, event)
    {
      if cancelFlag {
        return Raised(CancelledByUser);
      }
      match event {
        case Downloading(percent, fraction) =>
          if fraction.Some? {
            log := log + [Progress(taskId, fraction.value), Status(taskId, DownloadingPrefix + percent)];
          }
        case Finished =>
          log := log + [Status(taskId, Processing)];
        case OtherPhase =>
      }
      return Returned;
    }

    /**
      `_process_download` for the task the worker has just made current: build
      the library's options from the task's settings, check the flag, look up
      the metadata and report the title, check the flag, run the transfer with
      the progress hook. The user's cancel lands at `at`; `opts` are the
      options the library is handed.
    */
    method ProcessDownload(task: Task, lib: Library, at: CancelPoint) returns (r: StepResult, opts: DownloadOptions)
      requires currentTask == Some(task) && !cancelFlag
      modifies this`log, this`cancelledIds, this`cancelFlag
      ensures opts.format == FormatFor(task.settings.mode, task.settings.quality)
      ensures opts.home == task.settings.path
      ensures var t := Process(task.id, lib, at);
        && r == t.result
        && cancelFlag == t.flag
        && log == old(log) + t.updates
        && cancelledIds == old(cancelledIds) + (if t.flag then {task.id} else {})
    {
      opts := DownloadOptions(FormatFor(task.settings.mode, task.settings.quality), task.settings.path);
      if at == BeforeMetadata {
        CancelTask(task.id);
      }
      if cancelFlag {
        return Raised(CancelledMessage), opts;
      }
      var title: string;
      match lib.metadata {
        case InfoFailed(m) =>
          return Raised(m), opts;
        case Info(t) =>
          title := if t.Some? then t.value else UnknownTitle;
      }
      log := log + [Title(task.id, title)];
      if at == BeforeDownload {
        CancelTask(task.id);
      }
      if cancelFlag {
        return Raised(CancelledMessage), opts;
      }
      r := RunTransfer(task, lib, at);
    }

    /**
      `ydl.download`: the library makes its progress callbacks, each going
      through the hook, then returns or raises. The user's cancel lands at `at`.
    */
    method RunTransfer(task: Task, lib: Library, at: CancelPoint) returns (r: StepResult)
      requires currentTask == Some(task) && !cancelFlag
      modifies this`log, this`cancelledIds, this`cancelFlag
      ensures var t := Transfer(task.id, lib.events, lib.failure, at, 0);
        && r == t.result
        && cancelFlag == t.flag
        && log == old(log) + t.updates
        && cancelledIds == old(cancelledIds) + (if t.flag then {task.id} else {})
    {
      if at.BeforeHook? && at.k < |lib.events| {
        TransferCancelledAt(task.id, lib.events, lib.failure, at.k);
      } else {
        TransferRunsOut(task.id, lib.events, lib.failure, at);
      }
      r := HookLoop(task, lib, at);
    }

    /** The callbacks one by one, then the transfer's own ending. */
    method HookLoop(task: Task, lib: Library, at: CancelPoint) returns (r: StepResult)
      requires currentTask == Some(task) && !cancelFlag
      modifies this`log, this`cancelledIds, this`cancelFlag
      ensures at.BeforeHook? && at.k < |lib.events| ==>
        && r == Raised(CancelledByUser) && cancelFlag
        && log == old(log) + Emitted(task.id, lib.events, at.k)
        && cancelledIds == old(cancelledIds) + {task.id}
      ensures !(at.BeforeHook? && at.k < |lib.events|) ==>
        && r == (if lib.failure.Some? then Raised(lib.failure.value) else Returned)
        && cancelFlag == (at == BeforeOutcome)
        && log == old(log) + Emitted(task.id, lib.events, |lib.events|)
        && cancelledIds == old(cancelledIds) + (if at == BeforeOutcome then {task.id} else {})
    {
      var i: nat := 0;
      while i < |lib.events| && at != BeforeHook(i)
        invariant i <= |lib.events| && !(at.BeforeHook? && at.k < i)
        invariant !cancelFlag && currentTask == Some(task) && cancelledIds == old(cancelledIds)
        invariant log == old(log) + Emitted(task.id, lib.events, i)
      {
        ghost var before := Emitted(task.id, lib.events, i);
        var h := CallHook(task, lib.events[i], false);
        ghost var hs := HookUpdates(task.id, lib.events[i]);
        assert Emitted(task.id, lib.events, i + 1) == before + hs;
        assert (old(log) + before) + hs == old(log) + (before + hs);
        i := i + 1;
      }
      if i < |lib.events| {
        assert at == BeforeHook(i);
        r := CallHook(task, lib.events[i], true);
      } else {
        assert !(at.BeforeHook? && at.k < |lib.events|);
        r := EndTransfer(task, lib.failure, at == BeforeOutcome);
      }
    }

    /** One progress callback of the transfer, with the user's cancel landing just before it or not. */
    method CallHook(task: Task, event: HookEvent, cancelHere: bool) returns (h: StepResult)
      requires currentTask == Some(task) && !cancelFlag
      modifies this`log, this`cancelledIds, this`cancelFlag
      ensures cancelHere ==>
        h == Raised(CancelledByUser) && cancelFlag && log == old(log) && cancelledIds == old(cancelledIds) + {task.id}
      ensures !cancelHere ==>
        h == Returned && !cancelFlag && log == old(log) + HookUpdates(task.id, event) && cancelledIds == old(cancelledIds)
    {
      if cancelHere {
        CancelTask(task.id);
      }
      h := ProgressHook(event, task.id);
    }

    /** The transfer returns or raises, with the user's cancel landing just before or not. */
    method EndTransfer(task: Task, failure: Option<string>, cancelHere: bool) returns (r: StepResult)
      requires currentTask == Some(task) && !cancelFlag
      modifies this`cancelledIds, this`cancelFlag
      ensures r == if failure.Some? then Raised(failure.value) else Returned
      ensures cancelFlag == cancelHere
      ensures cancelledIds == old(cancelledIds) + (if cancelHere then {task.id} else {})
    {
      if cancelHere {
        CancelTask(task.id);
      }
      if failure.Some? {
        return Raised(failure.value);
      }
      return Returned;
    }

    /** The classification of how the download step ended (the try/except around it). */
    method ReportOutcome(task: Task, r: StepResult)
      modifies this`log
      ensures log == old(log) + Outcome(task.id, r, cancelFlag)
    {
      match r {
        case Returned =>
          if !cancelFlag {
            log := log + [Status(task.id, Completed), Progress(task.id, 1.0)];
          } else {
            log := log + [Status(task.id, Cancelled)];
          }
        case Raised(m) =>
          if Contains(m, "Cancelled") {
            log := log + [Status(task.id, Cancelled)];
          } else {
            log := log + [Status(task.id, Error)];
          }
      }
    }

    /**
      One turn of the worker loop: take the head task (nothing happens on an
      empty queue); report a task cancelled in advance as "Cancelled" and skip
      it; otherwise make it current, clear the flag, report "Initializing..."
      and progress 0.0, run the download step, report its classification, and
      finally clear the current task and forget its cancellation.
    */
    method Step(lib: Library, at: CancelPoint) returns (handled: Option<Task>)
      modifies this`queue, this`currentTask, this`cancelledIds, this`cancelFlag, this`log
      ensures old(queue) == [] ==>
        handled == None && queue == [] && log == old(log) && currentTask == old(currentTask)
        && cancelledIds == old(cancelledIds) && cancelFlag == old(cancelFlag)
      ensures old(queue) != [] ==>
        var task := old(queue)[0];
        && handled == Some(task)
        && queue == old(queue)[1..]
        && log == old(log) + Iteration(task, old(cancelledIds), lib, at)
        && cancelledIds == old(cancelledIds)
        && (task.id in old(cancelledIds) ==> currentTask == old(currentTask) && cancelFlag == old(cancelFlag))
        && (task.id !in old(cancelledIds) ==>
              currentTask == None && task.id !in cancelledIds && cancelFlag == Process(task.id, lib, at).flag)
    {
      if queue == [] {
        return None;
      }
      var task := queue[0];
      queue := queue[1..];
      handled := Some(task);
      if task.id in cancelledIds {
        log := log + [Status(task.id, Cancelled)];
        return;
      }
      RunTask(task, lib, at);
    }

    /**
      The part of a worker turn for a task not cancelled in advance: make it
      current, clear the flag, report "Initializing..." and progress 0.0, run
      the download step and report its classification; finally clear the
      current task and forget the task's cancellation.
    */
    method RunTask(task: Task, lib: Library, at: CancelPoint)
      requires task.id !in cancelledIds
      modifies this`currentTask, this`cancelledIds, this`cancelFlag, this`log
      ensures log == old(log) + Iteration(task, old(cancelledIds), lib, at)
      ensures currentTask == None && cancelledIds == old(cancelledIds)
      ensures cancelFlag == Process(task.id, lib, at).flag
    {
      Begin(task);
      ghost var head := [Status(task.id, Initializing), Progress(task.id, 0.0)];
      ghost var t := Process(task.id, lib, at);
      var r := Download(task, lib, at);
      ghost var out := Outcome(task.id, t.result, t.flag);
      ReportOutcome(task, r);
      assert ((old(log) + head) + t.updates) + out == old(log) + (head + t.updates + out);
      IterationRun(task, old(cancelledIds), lib, at);
      ghost var grown := cancelledIds;
      Cleanup(task);
      assert grown - {task.id} == old(cancelledIds);
    }

    /** Lines 108-112: the task becomes current with the flag clear, and it reports "Initializing..." and progress 0.0. */
    method Begin(task: Task)
      modifies this`currentTask, this`cancelFlag, this`log
      ensures currentTask == Some(task) && !cancelFlag
      ensures log == old(log) + [Status(task.id, Initializing), Progress(task.id, 0.0)]
    {
      currentTask := Some(task);
      cancelFlag := false;
      log := log + [Status(task.id, Initializing), Progress(task.id, 0.0)];
    }

    /** The download step with its options set aside, as the worker loop calls it. */
    method Download(task: Task, lib: Library, at: CancelPoint) returns (r: StepResult)
      requires currentTask == Some(task) && !cancelFlag
      modifies this`log, this`cancelledIds, this`cancelFlag
      ensures var t := Process(task.id, lib, at);
        && r == t.result
        && cancelFlag == t.flag
        && log == old(log) + t.updates
        && cancelledIds == old(cancelledIds) + (if t.flag then {task.id} else {})
    {
      var opts;
      r, opts := ProcessDownload(task, lib, at);
    }

    /** The `finally` block: no task is current and the task's cancellation is forgotten. */
    method Cleanup(task: Task)
      modifies this`currentTask, this`cancelledIds
      ensures currentTask == None && cancelledIds == old(cancelledIds) - {task.id}
    {
      currentTask := None;
      if task.id in cancelledIds {
        cancelledIds := cancelledIds - {task.id};
      }
    }

    /**
      One turn of the worker loop, stated as the first step of the reports
      and the flag of the turns in `rest`.
    */
    method Turn(rest: seq<(Library, CancelPoint)>) returns (t: Option<Task>)
      requires Idle() && rest != []
      modifies this`queue, this`currentTask, this`cancelledIds, this`cancelFlag, this`log
      ensures Idle() && cancelledIds == old(cancelledIds)
      ensures t.None? ==> old(queue) == [] && queue == []
      ensures t.Some? ==> old(queue) == [t.value] + queue
      ensures log + Drain(queue, cancelledIds, rest[1..]) == old(log) + Drain(old(queue), old(cancelledIds), rest)
      ensures FlagAfter(queue, cancelledIds, rest[1..], cancelFlag)
           == FlagAfter(old(queue), old(cancelledIds), rest, old(cancelFlag))
    {
      ghost var q, c, f, l := queue, cancelledIds, cancelFlag, log;
      var lib, at := rest[0].0, rest[0].1;
      if queue == [] {
        t := Step(lib, at);
        assert Drain(queue, c, rest[1..]) == Drain(q, c, rest) == [];
        return;
      }
      DrainStep(q, c, rest, l);
      FlagAfterCons(q, c, rest, f);
      t := Step(lib, at);
      assert q == [t.value] + queue;
    }

    /**
      The worker loop run for `|schedule|` turns with no other call in
      between; turn k uses the k-th library behaviour and cancel point. Turns
      that find the queue empty do nothing.
    */
    method RunWorker(schedule: seq<(Library, CancelPoint)>) returns (handled: seq<Task>)
      requires Idle()
      modifies this`queue, this`currentTask, this`cancelledIds, this`cancelFlag, this`log
      ensures Idle()
      ensures handled == old(queue)[..Min(|old(queue)|, |schedule|)]
      ensures queue == old(queue)[Min(|old(queue)|, |schedule|)..]
      ensures log == old(log) + Drain(old(queue), old(cancelledIds), schedule)
      ensures cancelledIds == old(cancelledIds)
      ensures cancelFlag == FlagAfter(old(queue), old(cancelledIds), schedule, old(cancelFlag))
    {
      handled := [];
      var n := 0;
      while n < |schedule|
        invariant n <= |schedule|
        invariant Idle() && cancelledIds == old(cancelledIds)
        invariant |handled| == Min(|old(queue)|, n)
        invariant old(queue) == handled + queue
        invariant log + Drain(queue, cancelledIds, schedule[n..])
               == old(log) + Drain(old(queue), old(cancelledIds), schedule)
        invariant FlagAfter(queue, cancelledIds, schedule[n..], cancelFlag)
               == FlagAfter(old(queue), old(cancelledIds), schedule, old(cancelFlag))
      {
        var t := Turn(schedule[n..]);
        assert schedule[n..][1..] == schedule[n + 1..];
        if t.Some? {
          assert handled + ([t.value] + queue) == (handled + [t.value]) + queue;
          handled := handled + [t.value];
        }
        n := n + 1;
      }
    }
  }
}
