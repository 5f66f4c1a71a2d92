/**
  The window's side of the downloader: the row shown for each task, the
  settings built from the controls when a URL is submitted, the URL check
  and the dispatch of the manager's updates to the rows.
*/
module Ui {
  import opened Strings
  import opened Tasks
  import opened Manager
  import opened Formats

  const TitleLimit := 55
  const TitleKept := 52
  const Ellipsis := "..."

  /** The title a row shows: long titles are cut to 52 characters and "...". */
  function Truncate(text: string): (shown: string)
    ensures |shown| <= TitleLimit
    ensures |text| <= TitleLimit ==> shown == text
    ensures |text| > TitleLimit ==>
      |shown| == TitleLimit && shown[..TitleKept] == text[..TitleKept] && shown[TitleKept..] == Ellipsis
  {
    if |text| > TitleLimit then text[..TitleKept] + Ellipsis else text
  }

  /** Cutting a title that is already short enough to show changes nothing. */
  lemma TruncateIdempotent(text: string)
    ensures Truncate(Truncate(text)) == Truncate(text)
  {
  }

  /** `validate_url`: a URL is accepted when it is non-empty and contains "http". */
  function ValidUrl(url: string): (ok: bool)
    ensures ok <==> exists i :: OccursAt(url, "http", i)
    ensures ok ==> |url| >= 4
  {
    ContainsIff(url, "http");
    |url| > 0 && Contains(url, "http")
  }

  /** The two layouts of the input area. */
  datatype UiMode = Simple | Advanced

  const QuickVideo := "Quick Video"
  const BestAvailable := "Best Available"

  /**
    The settings dictionary `start_download_task` builds from the mode, the
    simple-mode option button, the advanced-mode quality box and the
    download folder.
  */
  function SettingsFor(uiMode: UiMode, option: string, quality: string, path: string): (s: Settings)
    ensures s.path == path
    ensures uiMode == Simple ==> s.quality == "best" && (s.mode == Video <==> option == QuickVideo)
    ensures uiMode == Advanced ==> s.mode == Video
    ensures uiMode == Advanced ==> (s.quality == "best" <==> quality == BestAvailable || quality == "best")
    ensures uiMode == Advanced && quality != BestAvailable ==> s.quality == quality
  {
    match uiMode
    case Simple => Settings(if option == QuickVideo then Video else Audio, "best", path)
    case Advanced => Settings(Video, if quality != BestAvailable then quality else "best", path)
  }

  /**
    The height ceiling the download asks the library for is the quality typed
    or picked in the advanced box, and there is none in simple mode or for
    "Best Available".
  */
  lemma SettingsCeiling(uiMode: UiMode, option: string, quality: string, path: string)
    requires ']' !in quality
    ensures var s := SettingsFor(uiMode, option, quality, path);
      CeilingOf(FormatFor(s.mode, s.quality))
        == if uiMode == Advanced && quality != BestAvailable && quality != "best" then Some(quality) else None
  {
    var s := SettingsFor(uiMode, option, quality, path);
    CeilingRoundTrip(s.mode, s.quality);
  }

  /** What a row shows: title, status text and progress bar value. */
  datatype RowView = RowView(title: string, status: string, progress: real)

  const Queued := "Queued"

  /** The row a new task starts with: its URL, "Queued" and an empty bar. */
  function NewRow(url: string): RowView {
    RowView(url, Queued, 0.0)
  }

  /** What one update does to the row of its task. */
  function Render(row: RowView, u: Update): RowView {
    match u
    case Status(_, text) => row.(status := text)
    case Progress(_, f) => row.(progress := f)
    case Title(_, t) => row.(title := Truncate(t))
  }

  /** The row after a sequence of updates, applied oldest first. */
  function RenderAll(row: RowView, us: seq<Update>): RowView
    decreases |us|
  {
    if us == [] then row else RenderAll(Render(row, us[0]), us[1..])
  }

  lemma {:induction false} RenderAllAppend(row: RowView, a: seq<Update>, b: seq<Update>)
    ensures RenderAll(row, a + b) == RenderAll(RenderAll(row, a), b)
    decreases |a|
  {
    if a == [] {
      assert a + b == b;
    } else {
      assert (a + b)[1..] == a[1..] + b;
      RenderAllAppend(Render(row, a[0]), a[1..], b);
    }
  }

  /** A row shows the status of the terminal updates, with a full bar after "Completed". */
  lemma RenderTerminal(row: RowView, id: TaskId, status: string)
    ensures RenderAll(row, TerminalUpdates(id, status)).status == status
    ensures status == Completed ==> RenderAll(row, TerminalUpdates(id, status)).progress == 1.0
  {
    var t := TerminalUpdates(id, status);
    var first := Render(row, t[0]);
    assert first.status == status;
    if status == Completed {
      assert t[1..] == [Progress(id, 1.0)];
      assert t[1..][1..] == [];
      assert RenderAll(row, t) == RenderAll(first, t[1..]);
      assert RenderAll(first, t[1..]) == RenderAll(Render(first, t[1]), []);
    } else {
      assert t[1..] == [];
      assert RenderAll(row, t) == RenderAll(first, []);
    }
  }

  /**
    After a worker turn, the row of the task it dequeued shows the terminal
    status of the decision table, and a full progress bar if that is
    "Completed", whatever the row showed before.
  */
  lemma FinalRow(row: RowView, task: Task, cancelled: set<TaskId>, lib: Library, at: CancelPoint)
    ensures var r := RenderAll(row, Iteration(task, cancelled, lib, at));
      var status := ExpectedStatus(task.id, cancelled, lib, at);
      && r.status == status
      && (status == Completed ==> r.progress == 1.0)
  {
    var us := Iteration(task, cancelled, lib, at);
    var status := ExpectedStatus(task.id, cancelled, lib, at);
    var tail := TerminalUpdates(task.id, status);
    IterationFacts(task, cancelled, lib, at);
    assert us == us[..|us| - |tail|] + tail;
    RenderAllAppend(row, us[..|us| - |tail|], tail);
    RenderTerminal(RenderAll(row, us[..|us| - |tail|]), task.id, status);
  }

  /** The rows of the window after one update: an update for an unknown task is ignored. */
  function Dispatch(rows: map<TaskId, RowView>, u: Update): (r: map<TaskId, RowView>)
    ensures r.Keys == rows.Keys
    ensures u.id !in rows ==> r == rows
    ensures u.id in rows ==> r[u.id] == Render(rows[u.id], u)
    ensures forall id :: id in rows && id != u.id ==> r[id] == rows[id]
  {
    if u.id in rows then rows[u.id := Render(rows[u.id], u)] else rows
  }

  /** The rows of the window after a sequence of updates, each dispatched in turn. */
  function DispatchAll(rows: map<TaskId, RowView>, us: seq<Update>): map<TaskId, RowView>
    decreases |us|
  {
    if us == [] then rows else DispatchAll(Dispatch(rows, us[0]), us[1..])
  }

  /**
    Updates that all concern one task change that task's row as `RenderAll`
    says and no other row; when the task has no row they change nothing.
  */
  lemma {:induction false} DispatchOwn(rows: map<TaskId, RowView>, us: seq<Update>, id: TaskId)
    requires forall u :: u in us ==> u.id == id
    ensures id in rows ==> DispatchAll(rows, us) == rows[id := RenderAll(rows[id], us)]
    ensures id !in rows ==> DispatchAll(rows, us) == rows
    decreases |us|
  {
    if us != [] {
      assert us[0] in us;
      assert forall u :: u in us[1..] ==> u in us;
      var next := Dispatch(rows, us[0]);
      DispatchOwn(next, us[1..], id);
      if id in rows {
        assert next == rows[id := Render(rows[id], us[0])];
        assert next[id := RenderAll(next[id], us[1..])] == rows[id := RenderAll(rows[id], us)];
      }
    }
  }

  /**
    What the window shows after a worker turn's updates are dispatched: the
    task's row, if it has one, shows the decision table's terminal status (and
    a full bar after "Completed"), and every other row is as it was.
  */
  lemma WindowAfterTurn(rows: map<TaskId, RowView>, task: Task, cancelled: set<TaskId>, lib: Library, at: CancelPoint)
    ensures var after := DispatchAll(rows, Iteration(task, cancelled, lib, at));
      var status := ExpectedStatus(task.id, cancelled, lib, at);
      && after.Keys == rows.Keys
      && (forall id :: id in rows && id != task.id ==> after[id] == rows[id])
      && (task.id in rows ==> after[task.id].status == status)
      && (task.id in rows && status == Completed ==> after[task.id].progress == 1.0)
  {
    var us := Iteration(task, cancelled, lib, at);
    IterationIds(task, cancelled, lib, at);
    DispatchOwn(rows, us, task.id);
    if task.id in rows {
      FinalRow(rows[task.id], task, cancelled, lib, at);
    }
  }

  /** `DownloadItemFrame`: one task's row in the download list. */
  class DownloadItemFrame {
    const taskId: TaskId
    var title: string
    var status: string
    var progress: real
    var downloadPath: string

    function View(): RowView
      reads this
    {
      RowView(title, status, progress)
    }

    constructor (taskId: TaskId, url: string)
      ensures this.taskId == taskId && View() == NewRow(url) && downloadPath == ""
    {
      this.taskId := taskId;
      title := url;
      status := Queued;
      progress := 0.0;
      downloadPath := "";
    }

    method UpdateProgress(value: real)
      modifies this`progress
      ensures View() == Render(old(View()), Progress(taskId, value))
    {
      progress := value;
    }

    method UpdateStatus(text: string)
      modifies this`status
      ensures View() == Render(old(View()), Status(taskId, text))
    {
      status := text;
    }

    /** Show a title, cut to fit. */
    method UpdateTitle(text: string)
      modifies this`title
      ensures View() == Render(old(View()), Title(taskId, text))
      ensures |title| <= TitleLimit
    {
      title := Truncate(text);
    }

    method SetPath(path: string)
      modifies this`downloadPath
      ensures downloadPath == path
    {
      downloadPath := path;
    }
  }

  /** The application window's state: the manager, the rows by task id and the input controls. */
  class App {
    const manager: DownloadManager
    var items: map<TaskId, DownloadItemFrame>
    var currentMode: UiMode
    /** The simple-mode option button's value. */
    var option: string
    /** The advanced-mode quality box's text (the box accepts typing). */
    var quality: string
    var downloadPath: string
    /** The URL entry's text. */
    var entry: string

    /** Each task has its own row, labelled with its id. */
    ghost predicate Valid()
      reads this
    {
      && (forall a, b :: a in items && b in items && a != b ==> items[a] != items[b])
      && (forall id :: id in items ==> items[id].taskId == id)
    }

    /** What the list shows, by task id. */
    function Rows(): map<TaskId, RowView>
      reads this, items.Values
    {
      map id | id in items :: items[id].View()
    }

    /** The window as first shown; the download folder is chosen from the file system. */
    constructor (downloadPath: string)
      ensures fresh(manager) && manager.Idle() && manager.queue == [] && manager.cancelledIds == {}
      ensures Valid() && items == map[] && currentMode == Simple && option == QuickVideo && quality == BestAvailable
      ensures this.downloadPath == downloadPath && entry == ""
      ensures manager.log == [] && !manager.cancelFlag
    {
      manager := new DownloadManager();
      items := map[];
      currentMode := Simple;
      option := QuickVideo;
      quality := BestAvailable;
      this.downloadPath := downloadPath;
      entry := "";
    }

    method ToggleMode(mode: UiMode)
      modifies this`currentMode
      ensures currentMode == mode
    {
      currentMode := mode;
    }

    /**
      Submit a URL under a fresh task id: add a new row for it showing the URL
      and enqueue the task with the settings read off the controls.
    */
    method StartDownloadTask(url: string, taskId: TaskId)
      requires Valid()
      modifies this`items, manager`queue
      ensures Valid()
      ensures taskId in items && fresh(items[taskId]) && items == old(items)[taskId := items[taskId]]
      ensures items[taskId].taskId == taskId && items[taskId].View() == NewRow(url)
      ensures items[taskId].downloadPath == downloadPath
      ensures Rows() == old(Rows())[taskId := NewRow(url)]
      ensures manager.queue == old(manager.queue) + [Task(url, SettingsFor(currentMode, option, quality, downloadPath), taskId)]
    {
      var settings := SettingsFor(currentMode, option, quality, downloadPath);
      var item := new DownloadItemFrame(taskId, url);
      item.SetPath(downloadPath);
      items := items[taskId := item];
      manager.AddTask(url, settings, taskId);
    }

    /**
      Ctrl+V: in simple mode a valid clipboard URL is submitted at once and
      shown in the entry; in advanced mode the clipboard only replaces the
      entry's text, and only when the entry does not have the focus (the
      entry's own paste handles that case). A failed clipboard read does nothing.
    */
    method OnPaste(clipboard: Option<string>, entryFocused: bool, taskId: TaskId)
      requires Valid()
      modifies this`items, this`entry, manager`queue
      ensures Valid()
      ensures clipboard.None? || (currentMode == Simple && !ValidUrl(clipboard.value)) ==>
        items == old(items) && entry == old(entry) && manager.queue == old(manager.queue)
      ensures clipboard.Some? && currentMode == Simple && ValidUrl(clipboard.value) ==>
        && taskId in items && fresh(items[taskId]) && items == old(items)[taskId := items[taskId]]
        && items[taskId].downloadPath == downloadPath
        && Rows() == old(Rows())[taskId := NewRow(clipboard.value)]
        && manager.queue == old(manager.queue) + [Task(clipboard.value, SettingsFor(Simple, option, quality, downloadPath), taskId)]
        && entry == clipboard.value
      ensures clipboard.Some? && currentMode == Advanced ==>
        items == old(items) && manager.queue == old(manager.queue)
        && entry == if entryFocused then old(entry) else clipboard.value
    {
      if clipboard.None? {
        return;
      }
      var content := clipboard.value;
      if currentMode == Simple {
        if ValidUrl(content) {
          StartDownloadTask(content, taskId);
          entry := content;
        }
      } else if !entryFocused {
        entry := content;
      }
    }

    /** `_apply_update`: route one update to its task's row; ignore unknown ids. */
    method ApplyUpdate(u: Update)
      requires Valid()
      modifies items.Values
      ensures Valid()
      ensures Rows() == Dispatch(old(Rows()), u)
      ensures forall id :: id in items ==> items[id].downloadPath == old(items[id].downloadPath)
    {
      if u.id !in items {
        return;
      }
      var item := items[u.id];
      match u
      case Progress(_, f) => item.UpdateProgress(f);
      case Status(_, text) => item.UpdateStatus(text);
      case Title(_, t) => item.UpdateTitle(t);
    }
  }
}
