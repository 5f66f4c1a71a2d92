# YTFast download bookkeeping, in Dafny

YTFast is a desktop front end for a media downloader. Each submitted URL gets
a row in a download list and a task record `{url, settings, id}` on the
download manager's FIFO. One worker takes tasks off the queue one at a time,
reports progress and status back through an update callback, and ends every
task with exactly one of "Completed", "Cancelled" or "Error". The user can
cancel any queued or running task.

This project models that bookkeeping and proves what it promises. It has five
modules:

- `Strings`: Python's `sub in s`, which is the only substring test the
  code makes (lines 123 and 487). It is modelled as `Contains` and proved equal to
  "occurs at some index". `IndexOf` and a one-character `Split` are there only
  so the proofs can read the format expression back; the code calls neither.
- `Tasks`: the values the manager passes around. It also holds a functional
  specification of one worker turn, built from `Process`, `Transfer`,
  `Outcome` and `Iteration`. `Drain` specifies several turns in a row.
  `ExpectedStatus` is an independent decision table for the terminal status.
  Lemmas tie these together: exactly one terminal status per turn, FIFO order
  of reports, and the terminal status is the decision table's.
- `Manager`: the `DownloadManager` class. It holds the queue, the cancelled
  ids, the current task, the cancel flag and the log of updates sent to the
  callback. `add_task`, `cancel_task`, the progress hook, the download step
  and one turn of the worker loop are methods. Each method is proved against
  the `Tasks` specification.
- `Formats`: the format-selection expression that is handed to the media
  library. `FormatFor` gives it for a mode and quality, and `DownloadOptions`
  holds the two option entries the model keeps: the format and the home folder.
- `Ui`: these parts of the window:
  - title truncation and URL validation;
  - the settings built from the input controls;
  - the `DownloadItemFrame` row class;
  - the `App` class's submission, paste handling and update dispatch.

Two things the model cannot see are passed in as parameters:

- The media library's behaviour for a task is a `Library` value. It says
  whether the metadata lookup succeeds and with which title, which progress
  callbacks are made, and whether the transfer returns or raises.
- The point at which the user's cancel for the running task lands is a
  `CancelPoint`.

One worker turn is one atomic `Step`.

## Model

| member | source | states |
|---|---|---|
| Manager.DownloadManager.constructor | YTFast.py:73-79 | A new manager has an empty queue, no cancelled ids, no current task and the flag clear |
| Manager.DownloadManager.AddTask | YTFast.py:84-89 | Exactly the record `{url, settings, id}` is appended at the tail of the queue; nothing else changes |
| Manager.DownloadManager.CancelTask | YTFast.py:91-94 | The id always joins the cancelled set; the flag becomes set exactly when the id is the current task's, and otherwise keeps its value |
| Manager.DownloadManager.ProgressHook | YTFast.py:134-147 | With the flag set the hook raises "Cancelled by user" and reports nothing. Otherwise it reports progress and "Downloading... p" for a parsed percentage, nothing for an unparsable one, and "Processing..." for the finished phase |
| Manager.DownloadManager.ProcessDownload | YTFast.py:149-203 | The options handed to the library carry the format `FormatFor` gives for the task's mode and quality, and the task's folder as home. The step's result, final flag, reported updates and cancelled set are those of the specification `Process` for the given library behaviour and cancel point |
| Manager.DownloadManager.RunTransfer | YTFast.py:203 | The transfer's result, flag, updates and cancelled set are those of the specification `Transfer` |
| Manager.DownloadManager.HookLoop | YTFast.py:134-136 | The callbacks report what the first k of them report. The transfer stops with "Cancelled by user" at the callback the cancel precedes. Otherwise it ends as the library ends it, with the flag raised only by a cancel after the transfer |
| Manager.DownloadManager.ReportOutcome | YTFast.py:114-127 | The classification appends exactly the updates of `Outcome` for the step's result and the current flag |
| Manager.DownloadManager.Begin | YTFast.py:108-112 | The task becomes current with the flag clear, and the log gains exactly "Initializing..." and progress 0.0 for it |
| Manager.DownloadManager.Cleanup | YTFast.py:128-132 | No task is current afterwards, and the task's id is no longer in the cancelled set |
| Manager.DownloadManager.Step | YTFast.py:99-132 | On an empty queue nothing changes. Otherwise the head leaves the queue, the log grows by exactly `Iteration`, and the cancelled set ends as it was. On the skip path the current task and flag are untouched. Otherwise no task is current and the id is not cancelled afterwards |
| Manager.DownloadManager.RunTask | YTFast.py:108-132 | For a task not cancelled in advance, the log grows by exactly its `Iteration`. Afterwards no task is current, the cancelled set is as it was, and the flag is the one `Process` leaves |
| Manager.DownloadManager.Turn | YTFast.py:96-132 | One turn of the loop: an empty queue stays empty, or the head is dequeued. The reports and the flag are the first step of `Drain` and `FlagAfter`, and the manager is idle afterwards |
| Manager.DownloadManager.RunWorker | YTFast.py:96-132 | n turns take exactly the first min(n, queue length) tasks in FIFO order. The log grows by `Drain` of the old queue, the flag ends as `FlagAfter` says, and the manager is idle afterwards with the cancelled set as it was |
| Tasks.HookUpdatesFacts | YTFast.py:138-147 | The hook reports only about its own task and never a terminal status |
| Tasks.TransferFrom | YTFast.py:134-147 | A transfer whose first i callbacks meet no cancel reports those callbacks' updates, then continues as the transfer from callback i |
| Tasks.TransferCancelledAt | YTFast.py:134-136 | A cancel before callback i ends the transfer there with "Cancelled by user" and the flag set, after the earlier callbacks' reports |
| Tasks.TransferRunsOut | YTFast.py:203 | A transfer that meets no cancel at a callback reports every callback, then returns or raises as the library does |
| Tasks.TransferFacts | YTFast.py:134-147 | The transfer reports only about its task and no terminal status, and its classification matches the decision table from callback i on |
| Tasks.ProcessFacts | YTFast.py:194-203 | The download step reports only about its own task and never a terminal status |
| Tasks.CancelledMessagesClassify | YTFast.py:134-136 | The checkpoint messages "Cancelled" and "Cancelled by user" both contain "Cancelled", so they classify as cancellation |
| Tasks.ClassifyMessage | YTFast.py:120-127 | A raised message classifies as "Cancelled" exactly when it contains "Cancelled", and as "Error" otherwise; never as "Completed" |
| Tasks.ExpectedStatus | YTFast.py:103-127 | The decision table gives a terminal status. It is "Completed" exactly when the task was not cancelled in advance, the lookup and transfer did not fail, and no cancel was observed. "Error" needs a library failure, and a task cancelled in advance is "Cancelled" |
| Tasks.OutcomeMatchesTable | YTFast.py:114-127 | For a task not cancelled in advance, the classification emits the decision table's terminal updates |
| Tasks.IterationOneTerminal | YTFast.py:103-127 | Every dequeued task, skipped (line 104) or processed, receives exactly one terminal status |
| Tasks.IterationCount | YTFast.py:108-127 | A processed task receives exactly one terminal status |
| Tasks.IterationFacts | YTFast.py:103-127 | A turn reports only about its task and emits exactly one terminal status. It ends with the decision table's terminal updates ("Completed" followed by progress 1.0). A processed task's first two updates are "Initializing..." and progress 0.0 |
| Tasks.TerminalUpdatesCount | YTFast.py:114-127 | Every terminal outcome contains exactly one terminal status |
| Tasks.DrainTerminalCount | YTFast.py:96-132 | Over consecutive turns, the reports contain exactly one terminal status per dequeued task |
| Tasks.DrainInOrder | YTFast.py:96-106 | FIFO: with distinct ids, every report about an earlier task comes before every report about a later one |
| Strings.ContainsIff | YTFast.py:487 | Python's `sub in s` holds exactly when `sub` occurs in `s` at some index |
| Formats.FormatAlternatives | YTFast.py:165-183 | For a quality with no '/', the expression `FormatFor` builds splits as follows: audio mode asks for `bestaudio`, then `best`. Video with "best" asks for the three alternatives unfiltered. Any other quality asks for the same three alternatives, each capped by `[height<=q]` |
| Formats.EveryAlternativeCapped | YTFast.py:180-181 | Every alternative of a capped video expression contains the height cap |
| Formats.SplitAlternatives | YTFast.py:181 | Three '/'-free alternatives joined by '/' split back into the same three |
| Formats.CeilingRoundTrip | YTFast.py:165-183 | For a quality with no ']': the height ceiling read back from the expression is the quality exactly for video with a quality other than "best", and none otherwise |
| Ui.Truncate | YTFast.py:266-267 | The shown title is at most 55 characters. A title of up to 55 is unchanged. A longer one keeps its first 52 characters followed by "..." |
| Ui.TruncateIdempotent | YTFast.py:266-267 | Truncating a shown title again changes nothing |
| Ui.ValidUrl | YTFast.py:486-487 | A URL is accepted exactly when "http" occurs in it (so it is non-empty) |
| Ui.SettingsFor | YTFast.py:495-503 | In simple mode, "Quick Video" gives video and anything else audio, both with quality "best". In advanced mode it is video, with the box's text as quality and "Best Available" becoming "best". The path is the chosen folder |
| Ui.SettingsCeiling | YTFast.py:495-503 | For box text with no ']': the height ceiling in the expression the library receives is the advanced box's quality. There is none in simple mode, for "Best Available", or for a typed "best" |
| Ui.Dispatch | YTFast.py:526-534 | An update for an unknown id leaves every row alone. Otherwise only its own task's row changes, as `Render` says |
| Ui.RenderTerminal | YTFast.py:253-254 | A row shows the terminal status last applied, with a full bar after "Completed" |
| Ui.FinalRow | YTFast.py:114-127 | After a worker turn, the task's row shows the decision table's terminal status, and a full bar if that is "Completed" |
| Ui.DownloadItemFrame.constructor | YTFast.py:210-229 | A new row shows the URL, "Queued" and an empty bar, with no folder yet |
| Ui.DownloadItemFrame.UpdateProgress | YTFast.py:250-251 | Only the bar changes, to the given value |
| Ui.DownloadItemFrame.UpdateStatus | YTFast.py:253-254 | Only the status text changes, to the given text |
| Ui.DownloadItemFrame.UpdateTitle | YTFast.py:266-268 | Only the title changes, to the truncated text, which is at most 55 characters |
| Ui.DownloadItemFrame.SetPath | YTFast.py:270-271 | The row's folder becomes the given path |
| Ui.App.constructor | YTFast.py:274-291 | The window starts in simple mode with "Quick Video" and "Best Available" selected. It has no rows and a fresh, idle manager with an empty queue, no cancelled ids, an empty log and the flag clear |
| Ui.App.ToggleMode | YTFast.py:441-442 | The current mode becomes the chosen one |
| Ui.App.StartDownloadTask | YTFast.py:489-517 | Exactly one new row, showing the URL, is added under the task id, and other rows are unchanged. The manager's queue gains exactly the task with the settings read off the controls |
| Ui.App.OnPaste | YTFast.py:464-478 | In simple mode a valid clipboard URL is submitted and shown in the entry, and only its new row, which gets the current folder, is added; an invalid one changes nothing. In advanced mode only the entry's text changes, and only when it lacks focus. A failed clipboard read changes nothing |
| Ui.App.ApplyUpdate | YTFast.py:526-534 | The rows change exactly as `Dispatch` says: unknown ids are ignored and only the addressed row changes. No row's folder changes |
| Ui.DispatchOwn | YTFast.py:526-534 | Applying a list of updates that all address one id changes only that row, to the row with those updates rendered in order; for an unknown id nothing changes |
| Ui.WindowAfterTurn | YTFast.py:96-132 | After the window applies the updates of one worker turn, the rows have the same ids, other rows are unchanged, and the task's row shows the decision table's terminal status, with a full bar if that is "Completed" |

## Left out

- Threading is not modelled. That covers the daemon worker thread, `queue.get(timeout=1)` polling, `threading.Event` and the `is_running` loop. One worker turn is atomic. A `cancel_task` that lands between dequeuing and clearing the flag (lines 103-109) is not captured. Neither is one that lands after the flag test at line 116 and before the `finally` block (lines 116-131). In the source that cancel sets the flag, and the `finally` block then removes the id again (lines 131-132). In the model, a `CancelTask` after the turn leaves the id in the cancelled set. Neither are several cancels within one turn, other than the single `CancelPoint`.
- The media library (`YoutubeDL`, `extract_info`, `download`) is not modelled. It becomes the `Library` parameter. The download step builds a `DownloadOptions` value from the task's settings, holding the `'format'` entry and the `'paths'` home folder. The library's behaviour does not depend on it. The progress hook list, the post-processors, the merge format and the output template, quiet, warning, header and fragment options are not modelled.
- Percent parsing (`float(p) / 100` under a bare `except`) is not modelled. A `downloading` event carries the percent text and the parsed fraction, or none when parsing fails. So the model says nothing about the bar's values during a download, or about their order.
- Widget layout, colours, fonts and the action button's icon and commands are left out. After "Completed" the row's cancel button becomes an open-folder button, and after "Cancelled" it is disabled (lines 255-262). After "Error" the cancel button stays. So a task that ended "Completed" or "Cancelled" can no longer be cancelled from its row; the model's `CancelTask` accepts any id. The `after(0, ...)` marshalling onto the UI thread is too. Rows keep only title, status, bar value and folder.
- `resource_path`, font loading, `open_download_folder`, the folder dialog and `_get_path_display_name` are left out. These are operating-system integration. The initial download folder is a constructor parameter.
- Clipboard reads become an optional parameter of `OnPaste`. Entry focus becomes a boolean parameter.
- `manual_paste` (lines 454-462) and `manual_add_from_entry` (lines 480-484) are not modelled. `manual_paste` is the entry's paste button. It replaces the entry's text with the clipboard, and only in simple mode (lines 459-460) does it submit through `manual_add_from_entry`; in advanced mode it only fills the entry. `manual_add_from_entry` is the Add button. It strips the entry text, then goes through `validate_url` and `start_download_task`, which are modelled. The `strip()` is not.
- Task ids are parameters. `uuid.uuid4()` is not modelled. FIFO order is proved for distinct ids only, which UUIDs give.
- `print` of errors is left out. The `.get('quality', 'best')` and `.get('path', os.getcwd())` defaults are not modelled, because the submitted settings always hold both keys.
- The title read back from the metadata: `info.get('title', 'Unknown Title')` (line 198) gives "Unknown Title" only when the key is missing. When the key is present with the value None, the source reports None. The model's `Info(None)` stands for a missing key only, and a None-valued title is not modelled.
- The options the download step builds are not carried further: the worker turn (`Step`, `RunTask`) discards them, as the source's `ydl_opts` is local to `_process_download` (lines 155-192).
- Ui.ValidUrl: `validate_url` returns the URL itself or a boolean, and callers use only its truthiness. The model returns that truth value.
- Manager.DownloadManager.Step: on the skip path for a task cancelled before it started (lines 103-106), the id stays in the cancelled set. The model keeps this behaviour. It is harmless because ids are never reused.
- Progress 1.0 is not reserved for "Completed". The hook reports 1.0 whenever the library's percentage reads 100%. Only "Completed followed by progress 1.0" is proved.
