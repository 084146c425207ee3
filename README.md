# youtube-dlGUI: the planner, the progress hook and the run wrapper, in Dafny

youtube-dlGUI is a small tkinter window around the `youtube_dl` engine. The
user pastes links separated by spaces, picks a quality and presses
"Download...". A background call of `download_internal` then does three things:

- It plans how many download units the batch will have. Each plain link is one
  unit. A playlist link (one containing `?list=`) counts its available
  entries. The sum is doubled when the format string contains `+`.
- It builds a `HookClass` whose `hook_function` receives every progress
  dictionary from the engine. The hook drives two progress bars: one for the
  current item and one for the whole batch.
- It disables the download button during the run, swallows a `DownloadError`
  from the engine, and enables the button again.

This project models those three parts and proves what they do.

- `engine.dfy` (`Engine`): what the engine gives the GUI, all of it as model
  inputs. This covers playlist enumerations, progress dictionaries, and how the
  download call ends.
- `text.dfy` (`Text`): the Python string operations the planner uses:
  `split(" ")`, `strip()` with Python's whitespace set, and substring `in`.
- `planner.dfy` (`Planner`): the token filter, the counting loop (an imperative
  method `PlanUnits` proved against the function `Plan`), and the quality menu's
  format strings.
- `hook.dfy` (`Hook`): `HookClass` as a class whose fields are updated in place.
  It is proved against the pure one-call specification `Step`. `Run` folds
  `Step` over a sequence of events.
- `download.dfy` (`Download`): `download_internal` as a method of a `Window`
  that owns the button state. It is proved against the function `RunSpec`.

The model follows the code. In four places the code differs from what one might
expect, and the model keeps the code's behaviour:

- The per-item size is captured on any event while `get_size` is set, not only
  on "downloading" events.
- The per-item value is not reset on "finished".
- Empty or blank input is not treated specially. It plans 0 units, and the
  engine is still called.
- An exception from a playlist enumeration, from the hook, or from the engine
  (other than `DownloadError`) leaves the button disabled.

## Model

| member | source | states |
|---|---|---|
| `Text.Split` | youtube-dlGUI.py:62 | `split(" ")` gives at least one piece, no piece contains a space, and joining the pieces with " " gives back the input |
| `Text.SplitJoin` | youtube-dlGUI.py:62 | the other half of the round trip: space-free pieces joined with " " split back into exactly those pieces |
| `Text.StripLeft` | youtube-dlGUI.py:63 | `lstrip()` gives the suffix left after removing all leading whitespace; the result starts with a non-whitespace character or is empty |
| `Text.StripRight` | youtube-dlGUI.py:63 | `rstrip()` gives the prefix left after removing all trailing whitespace; the result ends with a non-whitespace character or is empty |
| `Text.Strip` | youtube-dlGUI.py:63 | `strip()` is `rstrip()` after `lstrip()`; it has no contract of its own, and `StripEmptyIff` gives what the planner uses of it |
| `Text.StripEmptyIff` | youtube-dlGUI.py:63 | `t.strip() == ""` holds exactly when `t` is made only of whitespace |
| `Text.Contains` | youtube-dlGUI.py:66 | `pat in s`; it has no contract of its own, and `ContainsIff` gives its meaning |
| `Text.ContainsIff` | youtube-dlGUI.py:66 | `pat in s` holds exactly when `pat` occurs in `s` at some index |
| `Text.ContainsChar` | youtube-dlGUI.py:76 | for a one-character pattern such as `"+"`, substring containment is character membership |
| `Planner.KeepNonBlank` | youtube-dlGUI.py:63 | the filter keeps a token exactly when it was in the list and is not blank; it never adds tokens |
| `Planner.KeepNonBlankAppend` | youtube-dlGUI.py:63 | the filter preserves order: filtering a concatenation concatenates the filtered parts |
| `Planner.Links` | youtube-dlGUI.py:62-63 | `list_links` computed from the input text: the split, then the filter; it has no contract of its own, and `LinksAreTokens` and `LinksEmptyIff` give its meaning |
| `Planner.LinksAreTokens` | youtube-dlGUI.py:62-63 | every link in `list_links` is one of the split pieces, contains no space and is not blank |
| `Planner.LinksEmptyIff` | youtube-dlGUI.py:62-63 | `list_links` is empty exactly when the input text is whitespace only, the empty text included |
| `Planner.CountAvailable` | youtube-dlGUI.py:69-70 | the count of non-`None` entries is at most the number of entries, and equals it exactly when no entry is `None` |
| `Planner.CountAvailableIsNotNone` | youtube-dlGUI.py:69-70 | the count is the number of entries minus the number of `None` entries |
| `Planner.CountAvailableAppend` | youtube-dlGUI.py:69-70 | the count of a concatenation of entry lists is the sum of the counts of the parts |
| `Planner.LinkUnits` | youtube-dlGUI.py:66-72 | one pass of the loop body: 1 for a plain link, the available entries for a playlist, the link's exception when its enumeration raises; it has no contract of its own, and `TotalUnitsMeaning` gives the meaning of the loop it makes up |
| `Planner.TotalUnits` | youtube-dlGUI.py:64-72 | `total_videos` after the loop, as a fold over the links that stops at the first exception; it has no contract of its own, and `TotalUnitsMeaning` gives its meaning |
| `Planner.TotalUnitsMeaning` | youtube-dlGUI.py:64-72 | the loop succeeds exactly when no playlist enumeration raises; on success its total is the number of plain links plus the available playlist entries; on failure it stops with the first playlist link whose enumeration raises |
| `Planner.FailureIsFinal` | youtube-dlGUI.py:65-68 | once an enumeration has raised, the links after it do not change the outcome |
| `Planner.CountUnits` | youtube-dlGUI.py:64-72 | the counting loop, with its early exit on the first enumeration that raises, computes `TotalUnits` of the links |
| `Planner.Plan` | youtube-dlGUI.py:62-77 | the planned total of the text, format and enumerations; it has no contract of its own, and `PlanMeaning` gives its meaning |
| `Planner.PlanUnits` | youtube-dlGUI.py:62-77 | the split, filter, counting loop and in-place doubling compute the planned total `Plan` of the text, format and enumerations |
| `Planner.PlanMeaning` | youtube-dlGUI.py:64-77 | the plan succeeds exactly when no link's enumeration raises; its value is (plain links + available playlist entries), doubled when the format contains "+", and then even; otherwise it is the first failing playlist link |
| `Planner.BlankInputPlansZero` | youtube-dlGUI.py:62-77 | an empty or whitespace-only input plans 0 units and cannot fail |
| `Planner.Format` | youtube-dlGUI.py:128-131 | the format string of each of the four menu entries; it has no contract of its own, and `DualStreamIffBest` gives what the planner uses of it |
| `Planner.DualStreamIffBest` | youtube-dlGUI.py:124-131 | of the four menu formats, only "bestvideo+bestaudio" (Best quality) contains "+" and so doubles the plan |
| `Hook.Initial` | youtube-dlGUI.py:16-25 | a new hook is armed for the size (`get_size`) and has `done == 0`; its total and aggregate maximum are `total_value`, its aggregate and per-item values are 0, and the per-item maximum is the one the bar already had |
| `Hook.Step` | youtube-dlGUI.py:27-40 | one call: while `get_size` is set, any event captures `total_bytes` as the per-item maximum, and a missing `total_bytes` raises with nothing changed; otherwise the maximum is untouched. "downloading" sets the per-item value to `downloaded_bytes`, or raises if it is missing. "finished" adds exactly 1 to `done`, re-arms `get_size` and sets the aggregate value to `done`. A "downloading" event without `downloaded_bytes` raises after the size capture, with the per-item value unchanged. Other statuses only capture the size. The aggregate bar invariant (value == done, maximum == total) is kept |
| `Hook.Run` | youtube-dlGUI.py:27-40 | a sequence of hook calls stops at the first call that raises; the number of calls that returned is at most the number of events, and is all of them when none raised |
| `Hook.RunMeaning` | youtube-dlGUI.py:25-40 | over any sequence of events, `done` grows by the number of "finished" events among the calls that returned, so it never decreases; a call that raised is the one right after them; the total and the aggregate maximum never change; the aggregate invariant is kept |
| `Hook.RunAppend` | youtube-dlGUI.py:27-40 | feeding two batches of events one after the other is the same as feeding their concatenation |
| `Hook.FreshHookCountsFinished` | youtube-dlGUI.py:16-40 | a fresh hook that handles a whole run without raising ends with `done` and the aggregate value equal to the number of "finished" events, however "downloading" events are interleaved, and the aggregate maximum equal to the plan |
| `Hook.OneItemTrace` | youtube-dlGUI.py:27-40 | the events downloading 0/100, 50/100, 100/100 and then finished set the per-item maximum to 100 and the per-item value to 0, 50 and 100, then leave `done == 1`, `get_size` re-armed, and the per-item value at 100 (not reset) |
| `Hook.HookClass.constructor` | youtube-dlGUI.py:16-25 | `__init__` resets both bar values, sets the aggregate maximum to `total_value`, sets `get_size` and `done == 0`, and keeps the per-item maximum the bar already had |
| `Hook.HookClass.HookFunction` | youtube-dlGUI.py:27-40 | `hook_function` updates the fields in place exactly as `Step` says, including the partial update left by a KeyError; `done` never decreases and the aggregate invariant is kept |
| `Download.RunSpec` | youtube-dlGUI.py:43-95 | the outcome of one call of `download_internal`; it has no contract of its own, and `ReenabledIff`, `DownloadErrorSwallowed` and `CompletedCounts` give its meaning |
| `Download.ReenabledIff` | youtube-dlGUI.py:60-95 | the run ends normally (button enabled) exactly when planning succeeds, no hook call raises, and the engine returns or raises `DownloadError`; a failed enumeration ends the run with that link's exception |
| `Download.DownloadErrorSwallowed` | youtube-dlGUI.py:90-95 | a `DownloadError` from the engine gives exactly the same result as a normal return |
| `Download.CompletedCounts` | youtube-dlGUI.py:79-95 | after a normal end, the aggregate bar's maximum is the plan, and its value and `done` are the number of "finished" events |
| `Download.FeedEvents` | youtube-dlGUI.py:85-92 | the engine calls the hook once per event, in order, and stops at the first call that raises; the hook's final state and whether it raised are `Run` of the events |
| `Download.Window.DownloadInternal` | youtube-dlGUI.py:43-95 | `download_internal` returns `RunSpec` of its inputs; the button is first set to disabled and, only on a normal end, set back to normal, so it ends normal exactly then |

## Left out

- The window itself (`main`, lines 108-163): widgets, layout and the option menu. Only the four format strings of lines 128-131 are kept, in `Planner.Format`.
- The thread launched by `download` (lines 98-105). The model runs `download_internal` sequentially. Widget updates from the worker thread racing the UI are not modelled.
- The `youtube_dl.YoutubeDL` calls. Three abstract inputs replace them:
  - `extract_info(link, download=False)["entries"]` becomes a function from a link to an entry list or a failure.
  - The events passed to the hook become a sequence of progress dictionaries.
  - The end of `ydl.download` becomes an outcome: returned, `DownloadError`, or another exception.
- The options dictionaries (`quiet`, `extract_flat`, `no_warnings`, …). They only configure the engine.
- The enumeration is a function of the link alone. So a playlist that appears twice counts the same both times. A real second `extract_info` call could return a different list.
- The `int(...)` conversions on `total_bytes` and `downloaded_bytes`. The fields are taken to be integers, so a `ValueError` on a non-numeric value is not modelled.
- Download.Window.DownloadInternal: the model assumes that an exception raised by the hook (a KeyError) is not caught by the engine and leaves `ydl.download` as an exception other than `DownloadError`. The engine's code is not part of this model.
- The widgets' own behaviour: the fraction a progress bar draws, and tkinter's handling of a maximum of 0. Only the numbers written into `maximum` and `value` are modelled.
- Only the per-item bar's maximum carries over from an earlier run (a parameter of the constructor). Every other bar field is overwritten by `__init__`.
- Where one might expect otherwise, the model follows the code. The four cases are listed in the introduction.
