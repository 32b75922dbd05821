# Electrode channel state and device view of MicroDrop

MicroDrop drives a digital-microfluidics (DMF) device. Each electrode of the
device is wired to one or more numbered control channels. Each step of a
protocol holds an array that says, channel by channel, whether that channel is
switched on during the step.

This project models two parts in Dafny, from the Python 2 sources:

- **The channel-state handlers of `DmfDeviceController`**
  (`microdrop/gui/dmf_device_controller.py`):
  - getting or creating the per-step options (`get_step_options`, with `DmfDeviceOptions`);
  - the left-click toggle of an electrode's channels (`on_electrode_click`);
  - the colour every electrode is given from the current step's state (`_update`);
  - the edit of an electrode's channel list from a comma-separated answer, which zero-pads the arrays of all steps (`on_edit_electrode_channels`);
  - the translation of pointer coordinates (`translate_coords`).
- **The electrode layout and drawing of `DeviceView`** (`python/gui/device_view.py`):
  - electrodes numbered from a class-level counter;
  - a height that defaults to the width;
  - the strict point-in-rectangle test `contains`;
  - the +5 offset applied in place to the hard-coded layout;
  - the rectangles `update` fills.

## Modules

- `Wrappers`: the `Option` datatype.
- `Colors`: the (r, g, b) colour tuples red, white and blue.
- `ChannelText`: the text the channel dialog shows and reads:
  - Python's `str.split(',')` and `','.join`;
  - `str(int)`;
  - Python 2's `int(str)`, which accepts leading whitespace, an optional sign, whitespace after that sign, one or more decimal digits and trailing whitespace, so `" - 12 "` is -12; nothing else converts.
- `ChannelState`: specification functions for the handlers, with lemmas about them:
  - numpy indexing of a state array, including negative indices;
  - the toggle;
  - the classification into unassigned, all on, all off and mixed;
  - the colouring pass;
  - the zero-padding;
  - the outcome of a channel edit.
- `DmfDeviceController`: the handlers as imperative Dafny.
  - `DeviceOptions` is a class holding the state array (`array<int>`).
  - `Controller` holds the protocol steps and the current step number. It also holds the device's electrode-to-channel table, the view's colour table, the last electrode clicked, and a log of the events the handlers send. These are the shell's error dialog, the logger, the plugin notification `on_step_options_changed`, the popup and the redraw.
  - Each method is proved against the functions of `ChannelState`.
- `DeviceView`:
  - the `Electrode` class with its id counter;
  - the `DeviceView` class, which keeps its electrodes in list order and the fills it has issued to its pixmap;
  - lemmas on `contains`.

## Behaviour worth knowing

- **Empty answer.** An empty answer to the channel dialog does not clear the electrode's channels. `if channel_list:` (line 303) skips the whole edit, and the handler only notifies the plugins (line 323). What the dialog returns when it is cancelled depends on `main_window_controller.get_text_input`, which is not part of this model.
- **The step line 311 reads.** Line 311 reads the state array of `app.protocol[i]`, with whatever `i` is bound at that point:
  - After converting a non-empty first piece, `i` is the last index of the conversion loop of line 307, `len(channels) - 1`.
  - With an empty first piece (an answer such as `","`), `i` is the variable that Python 2's list comprehension at line 297 leaks: the electrode's last old channel number.
  - When the electrode had no channels, `i` is unbound there, and the `NameError` is caught by the bare `except` of line 321, which shows "Invalid channel.".
  - See `ChannelState.ProbeIndex` and `ChannelState.ProbedState`, and the finding below.
- **Only a non-empty first piece is converted.** An answer whose first piece is non-empty and that has a piece `int()` refuses changes nothing (lines 306-309, 321-322). When the first piece is empty, line 310 sets the list to `[]` without converting anything: an answer such as ",a" clears the electrode's list with no error exactly when line 311 finds a step to read, and is refused otherwise (`ChannelState.EditEmptyFirstPiece`, `ChannelState.EditCommaLetterClears`).
- **Padding can stop part way.** Once padding has started (lines 314-319), it stops at the first step that cannot be padded:
  - a step without options raises `AttributeError`;
  - a step whose array is already longer than max(channels) + 1 makes `np.zeros` get a negative count.
  - The steps before that one keep their padded arrays, the electrode keeps its old list, and "Invalid channel." is shown (`ChannelState.EditPartialPadding`).
- **An unpadded list can stop a click part way.** Because line 311 may read a step other than the current one, an accepted list can name a channel beyond the current step's array: "3,7" on a protocol whose step 1 has 8 elements and whose current step 0 has 5 reads step 1 and pads nothing. The next left click on that electrode toggles channel 3 and raises `IndexError` at channel 7, so the channels before the bad one stay toggled and the rest are never reached; the plugins are not notified (`ChannelState.EditSkipsPaddingThenClickStops`, `ChannelState.ToggledStops`). `_update` stops the same way at the first such electrode, with the electrodes before it already painted (`ChannelState.RecolorStops`).
- **A click normalises.** Lines 189-192 set a channel to 0 if it is > 0 and to 1 otherwise. So a channel at 2 goes to 0 and then to 1, not back to 2 (`ChannelState.ToggledTwice`, which holds also for a list that repeats a channel).
- **Repeated channels.** The edit accepts a list that repeats a channel, such as "3,3". The click loop of lines 188-192 then flips each element once per list entry that addresses it (`ChannelState.ToggledFlipsPerOccurrence`). So one click leaves a 0 or 1 channel listed an even number of times where it was (`ChannelState.FlipTimesEven`).
- **Uniform means equal.** Line 377 compares every state of an electrode with its first one, so an electrode is white or blue only when all its states are equal. States 1 and 2 count as mixed: the colour is left alone and "not supported yet" is logged (lines 382-384, `ChannelState.ClassifySpec`).

## Model

| member | source | states |
|---|---|---|
| ChannelText.JoinSplit | microdrop/gui/dmf_device_controller.py:297-305 | joining the pieces of a split with the separator gives the text back, for every text |
| ChannelText.Split | microdrop/gui/dmf_device_controller.py:304 | `str.split(',')`: at least one piece, none containing the separator; JoinSplit and SplitJoin make it the inverse of `','.join` |
| ChannelText.Join | microdrop/gui/dmf_device_controller.py:297 | `','.join`; its properties are JoinSplit and SplitJoin |
| ChannelText.SplitJoin | microdrop/gui/dmf_device_controller.py:297-305 | splitting a join of comma-free pieces gives exactly those pieces back |
| ChannelText.NatToString | microdrop/gui/dmf_device_controller.py:297 | `str` of a natural number is a non-empty string of digits |
| ChannelText.IntToString | microdrop/gui/dmf_device_controller.py:297 | `str(i)`; ParseIntOfString and IntToStringHasNoComma state its properties |
| ChannelText.ParseInt | microdrop/gui/dmf_device_controller.py:308 | Python 2's `int(piece)`, None for `ValueError`; ParseIntOfString and ParsedTokenChars state its properties |
| ChannelText.ParseIntOfString | microdrop/gui/dmf_device_controller.py:297-308 | `int(str(n)) == n` for every integer n, negative ones included |
| ChannelText.ParsedTokenChars | microdrop/gui/dmf_device_controller.py:308 | a piece `int()` accepts consists only of digits, whitespace and signs |
| ChannelText.ConvertTokensSpec | microdrop/gui/dmf_device_controller.py:306-308 | converting the pieces succeeds iff every piece converts, and then gives one integer per piece, in order |
| ChannelText.ConvertTokens | microdrop/gui/dmf_device_controller.py:306-308 | the values of the pieces, None when one is refused; ConvertTokensSpec states it pointwise |
| ChannelText.ParseChannels | microdrop/gui/dmf_device_controller.py:306-308 | the conversion loop succeeds iff every piece converts; its result is the pieces' values in order |
| ChannelText.IntToStringHasNoComma | microdrop/gui/dmf_device_controller.py:297 | the string of a channel number never contains the separator |
| ChannelText.ChannelStrings | microdrop/gui/dmf_device_controller.py:297 | `[str(i) for i in channels]`: one string per channel; IntToStringHasNoComma and ChannelListTextRoundTrip state its properties |
| ChannelText.ChannelListText | microdrop/gui/dmf_device_controller.py:297 | the dialog's default text, the channels' strings joined with commas; ChannelListTextRoundTrip states that it converts back |
| ChannelText.ChannelListTextRoundTrip | microdrop/gui/dmf_device_controller.py:297-308 | the dialog's default text for a non-empty channel list splits into the channels' strings and converts back to that list |
| ChannelState.Slot | microdrop/gui/dmf_device_controller.py:190 | a numpy index in range names an element of the array |
| ChannelState.SlotOfNonNegative | microdrop/gui/dmf_device_controller.py:190 | a non-negative channel number indexes its own element |
| ChannelState.Zeros | microdrop/gui/dmf_device_controller.py:50-51 | a fresh state array has the given length and is all zeros |
| ChannelState.Toggled | microdrop/gui/dmf_device_controller.py:188-192 | the toggle never changes the array's length |
| ChannelState.Flip | microdrop/gui/dmf_device_controller.py:189-192 | one click's change of a channel: 0 when it was > 0, 1 otherwise; FlipTimesEvenPositive and ToggledTwice state what repeated clicks give |
| ChannelState.ToggledStops | microdrop/gui/dmf_device_controller.py:188-192 | at the first out-of-range channel the loop stops: the state is that of toggling the channels before it, and later ones are never reached |
| ChannelState.ToggledStopsExample | microdrop/gui/dmf_device_controller.py:188-192 | channels [0, 99, 1] on three zeros give [1, 0, 0]: channel 0 is toggled and channel 1 never is |
| ChannelState.ToggledLeavesOthers | microdrop/gui/dmf_device_controller.py:188-192 | an element no listed channel addresses keeps its value, whichever channels are out of range |
| ChannelState.ToggledFlipsListed | microdrop/gui/dmf_device_controller.py:188-192 | with distinct in-range channels, each listed channel goes to 0 if it was > 0 and to 1 otherwise |
| ChannelState.ToggleSpec | microdrop/gui/dmf_device_controller.py:185-192 | with distinct in-range channels, a left click flips exactly the electrode's channels and keeps the length and every other element |
| ChannelState.ToggledTwice | microdrop/gui/dmf_device_controller.py:188-192 | with all channels in range, repeated ones included, two clicks leave each listed channel at 1 if it was > 0 and at 0 otherwise, so a 2 is not restored, and every other element as it was |
| ChannelState.Occurrences | microdrop/gui/dmf_device_controller.py:188 | the number of list entries addressing an element is at most the list's length |
| ChannelState.ToggledFlipsPerOccurrence | microdrop/gui/dmf_device_controller.py:188-192 | with all channels in range, each element ends flipped once per list entry that addresses it, repeated entries included |
| ChannelState.FlipTimesFlip | microdrop/gui/dmf_device_controller.py:189-192 | one more flip before n flips is n + 1 flips |
| ChannelState.FlipTimesEven | microdrop/gui/dmf_device_controller.py:189-192 | an even number of flips gives a 0 or 1 back |
| ChannelState.ToggledTwiceRestoresBinary | microdrop/gui/dmf_device_controller.py:188-192 | on a 0/1 state, with all channels in range, repeated ones included, two clicks give the state back |
| ChannelState.FlipTimesAdd | microdrop/gui/dmf_device_controller.py:189-192 | a flips followed by b flips are a + b flips |
| ChannelState.FlipTimesEvenPositive | microdrop/gui/dmf_device_controller.py:189-192 | a positive even number of flips leaves 1 for a value > 0 and 0 otherwise |
| ChannelState.OccurrencesListed | microdrop/gui/dmf_device_controller.py:188 | an element some list entry addresses is addressed at least once |
| ChannelState.OccurrencesUnlisted | microdrop/gui/dmf_device_controller.py:188 | an element no list entry addresses is addressed zero times |
| ChannelState.ClickEvents | microdrop/gui/dmf_device_controller.py:185-198 | the events of one click; ClickSpec states when the plugins are notified |
| ChannelState.ClickedState | microdrop/gui/dmf_device_controller.py:185-192 | the state after one click; ClickSpec and ToggleSpec state its properties |
| ChannelState.ClickSpec | microdrop/gui/dmf_device_controller.py:184-198 | the plugins are notified iff button 1 hit an electrode with channels, all in range; other buttons and channel-less electrodes leave the state as it was; the length never changes |
| ChannelState.Gather | microdrop/gui/dmf_device_controller.py:374 | fancy indexing gives one state per channel |
| ChannelState.CountEqual | microdrop/gui/dmf_device_controller.py:377 | the count of equal entries is at most the length |
| ChannelState.CountEqualAll | microdrop/gui/dmf_device_controller.py:377 | the count of entries equal to v is the length iff every entry equals v |
| ChannelState.Classify | microdrop/gui/dmf_device_controller.py:372-386 | the shade of lines 372-386; ClassifySpec characterises each of the four outcomes |
| ChannelState.ClassifySpec | microdrop/gui/dmf_device_controller.py:372-386 | an electrode is unassigned iff it has no channels; all on iff all its states equal the first and that is > 0; all off iff all equal and ≤ 0; mixed iff some state differs from the first |
| ChannelState.Recolor | microdrop/gui/dmf_device_controller.py:369-386 | the colouring loop over the dictionary order, stopping at IndexError; RecolorSpec and RecolorLogs state its properties |
| ChannelState.RecolorSpec | microdrop/gui/dmf_device_controller.py:369-386 | the pass gets through iff every electrode's channels are in range; it then gives each visited electrode its classification's colour, whatever the order, and leaves every other entry untouched |
| ChannelState.RecolorFinishes | microdrop/gui/dmf_device_controller.py:369-386 | the pass finishes iff no electrode on the way has a channel outside the array |
| ChannelState.RecolorColors | microdrop/gui/dmf_device_controller.py:369-386 | with all channels in range, visited electrodes carry their own classification's colour, and unvisited ones keep theirs |
| ChannelState.Paint | microdrop/gui/dmf_device_controller.py:378-386 | the colour written for a shade: red, white or blue for that electrode alone, nothing for a mixed one; RecolorSpec and RecolorVisited state the table it leaves |
| ChannelState.RecolorStops | microdrop/gui/dmf_device_controller.py:369-386 | a pass that meets an electrode with a channel outside the array stops there unfinished, with the colours and log of the electrodes before it, each of which carries its classification's colour |
| ChannelState.RecolorStopsPrefix | microdrop/gui/dmf_device_controller.py:369-386 | a pass that stops at electrode j has the colours and log of the finished pass over the first j electrodes |
| ChannelState.RecolorVisited | microdrop/gui/dmf_device_controller.py:369-386 | an electrode visited carries the colour of its own classification, also when it is visited twice |
| ChannelState.RecolorUntouched | microdrop/gui/dmf_device_controller.py:369-386 | an electrode the pass does not visit keeps its colour entry, present or absent |
| ChannelState.MixedCount | microdrop/gui/dmf_device_controller.py:377-384 | the number of mixed electrodes on the way is at most the number visited |
| ChannelState.RecolorLogs | microdrop/gui/dmf_device_controller.py:382-384 | the pass only appends "not supported yet" to the log; with all channels in range it appends exactly one per mixed electrode visited |
| ChannelState.OptionsState | microdrop/gui/dmf_device_controller.py:151-156 | an existing step's state is returned unchanged; a missing one is zeros of length max_channel()+1, as `DmfDeviceOptions()` makes at lines 50-51 |
| ChannelState.Max | microdrop/gui/dmf_device_controller.py:312 | `max` is an element of the list and no element exceeds it |
| ChannelState.Pad | microdrop/gui/dmf_device_controller.py:316-319 | the padded array has length m+1, keeps the old array as its prefix and is 0 beyond it |
| ChannelState.FirstUnpaddable | microdrop/gui/dmf_device_controller.py:314-319 | every step before the one where padding raises can be padded, and that step cannot |
| ChannelState.PaddedPrefix | microdrop/gui/dmf_device_controller.py:314-319 | the padding loop keeps the number of steps |
| ChannelState.ProbeIndex | microdrop/gui/dmf_device_controller.py:297-311 | the `i` bound at line 311; EditProbesTokenCount exhibits its consequence |
| ChannelState.ProbedState | microdrop/gui/dmf_device_controller.py:311 | the array line 311 reads, None where that line raises; EditAssignedSpec keys the padding to it |
| ChannelState.ParsedChannels | microdrop/gui/dmf_device_controller.py:304-310 | the converted list: the pieces' values when the first piece is non-empty (ConvertTokensSpec), [] otherwise; EditAssignedSpec makes it the assigned list |
| ChannelState.EditOutcome | microdrop/gui/dmf_device_controller.py:303-322 | the edit as written; the Edit lemmas below state its properties |
| ChannelState.EditRejectsNonInteger | microdrop/gui/dmf_device_controller.py:304-322 | an answer with a non-empty first piece and a piece `int()` refuses shows "Invalid channel." and changes neither the electrode nor any step |
| ChannelState.EditRejectsLetters | microdrop/gui/dmf_device_controller.py:304-322 | the answer "a,b" is refused and changes nothing |
| ChannelState.EditEmptyFirstPiece | microdrop/gui/dmf_device_controller.py:304-322 | an answer starting with a comma changes no step; it clears the list without an error exactly when line 311 finds a step to read, and is otherwise refused with nothing changed, as always when the electrode had no channels |
| ChannelState.EditAssignedSpec | microdrop/gui/dmf_device_controller.py:311-320 | a successful edit had a readable step at line 311 and assigns the converted list; when max(channels) reaches that step's array length, every step is padded to max+1 with its old entries in front and zeros after them; otherwise no step changes |
| ChannelState.EditPartialPadding | microdrop/gui/dmf_device_controller.py:314-322 | a refused edit never assigns; the steps are untouched, or padded to max(channels)+1 up to the first step that cannot be padded and untouched from there |
| ChannelState.EditProbesTokenCount | microdrop/gui/dmf_device_controller.py:311 | as written, "3,4" on a one-step protocol is refused with nothing changed, while the intended edit accepts [3, 4] |
| ChannelState.EditCommaLetterClears | microdrop/gui/dmf_device_controller.py:304-322 | the answer ",a" is never converted: on every protocol where the electrode's last old channel names a step with options, it clears the electrode's list without an error and changes no step |
| ChannelState.EditSkipsPaddingThenClickStops | microdrop/gui/dmf_device_controller.py:311-320 | as written, "3,7" on a protocol whose step 1 is longer than step 0 is assigned without padding, and the next click on step 0 toggles channel 3 and stops at channel 7 |
| ChannelState.EditOutcomeIntended | microdrop/gui/dmf_device_controller.py:303-322 | the edit with line 311 reading the current step; IntendedEditAccepts states its property |
| ChannelState.IntendedEditAccepts | microdrop/gui/dmf_device_controller.py:304-320 | with line 311 reading the current step, every list of integers is accepted on a protocol of equal-length arrays, and afterwards every step has an element for every non-negative channel |
| DmfDeviceController.DeviceOptions.constructor | microdrop/gui/dmf_device_controller.py:47-51 | new options hold a fresh all-zero array for channels 0..max_channel() |
| DmfDeviceController.ToggleChannels | microdrop/gui/dmf_device_controller.py:188-192 | the in-place loop leaves the array equal to the toggle of its old contents and reports whether every channel was in range |
| DmfDeviceController.TranslateCoords | microdrop/gui/dmf_device_controller.py:170-171 | the pointer's device coordinates are its widget coordinates divided by the scale, less the offset |
| DmfDeviceController.TranslateCoordsInverse | microdrop/gui/dmf_device_controller.py:170-171 | translate_coords and the view's placement are inverse to each other, in both directions |
| DmfDeviceController.Controller.constructor | microdrop/gui/dmf_device_controller.py:65-70 | a valid controller in which no electrode has been clicked (`last_electrode_clicked = None`), no step has options yet, no colour is set and nothing has been sent |
| DmfDeviceController.Controller.Log | microdrop/gui/dmf_device_controller.py:321-323 | one event (the error dialog, a logger line, the plugin notification) is appended to what the handlers sent; nothing else changes |
| DmfDeviceController.Controller.GetStepOptions | microdrop/gui/dmf_device_controller.py:145-156 | returns the current step's own options when it has them, changing nothing; otherwise stores and returns fresh zero options in that step only |
| DmfDeviceController.Controller.OnElectrodeClick | microdrop/gui/dmf_device_controller.py:181-199 | records the electrode as last clicked; the current step's state becomes ClickedState and the events are ClickEvents; nothing else changes |
| DmfDeviceController.Controller.ToggleCurrent | microdrop/gui/dmf_device_controller.py:188-192 | the current step's array becomes the toggle of its old contents; the other steps keep theirs |
| DmfDeviceController.Controller.SelectElectrode | microdrop/gui/dmf_device_controller.py:184 | the clicked electrode becomes the last clicked; nothing else changes |
| DmfDeviceController.Controller.SetColor | microdrop/gui/dmf_device_controller.py:379-386 | one electrode's entry of the colour table is set; nothing else changes |
| DmfDeviceController.Controller.AssignChannels | microdrop/gui/dmf_device_controller.py:320 | the last clicked electrode's list becomes the given one; nothing else changes |
| DmfDeviceController.Controller.Update | microdrop/gui/dmf_device_controller.py:366-387 | the colour table and the log are those of the colouring pass over the dictionary order, followed by a redraw when it finishes; with all channels in range, every electrode carries its classification's colour |
| DmfDeviceController.Controller.RecolorAll | microdrop/gui/dmf_device_controller.py:369-386 | the loop's colour table, log and stop are exactly the colouring pass's |
| DmfDeviceController.Controller.PaintElectrode | microdrop/gui/dmf_device_controller.py:371-386 | one electrode is painted after its classification, and a mixed one is logged |
| DmfDeviceController.Controller.PadSteps | microdrop/gui/dmf_device_controller.py:314-319 | the steps become the padded prefix up to the first unpaddable step, and done says whether the loop got through |
| DmfDeviceController.Controller.PadStep | microdrop/gui/dmf_device_controller.py:315-319 | one step's options get a new array: the old one zero-padded to m+1 |
| DmfDeviceController.Controller.PadAndAssign | microdrop/gui/dmf_device_controller.py:312-320 | pads every step, then assigns the list only when all steps were padded |
| DmfDeviceController.Controller.EditElectrodeChannels | microdrop/gui/dmf_device_controller.py:295-323 | the steps and the electrode's list become those of EditOutcome; "Invalid channel." is shown exactly on a refusal; the plugins are always notified |
| DmfDeviceController.Controller.ApplyAnswer | microdrop/gui/dmf_device_controller.py:304-322 | for a non-empty answer, the steps, the electrode's list and the refusal are those of EditOutcome |
| DeviceView.IdCounter.constructor | python/gui/device_view.py:73-74 | `Electrode.next_id`, starting at the given value; Electrode.constructor draws from it and advances it |
| DeviceView.Scaled | python/gui/device_view.py:69-71 | the rectangle `draw_electrode` draws: position and extent multiplied by the scale; ContainsIsInteriorOfOutline and Fills state its use |
| DeviceView.Electrode.constructor | python/gui/device_view.py:74-85 | the id is the counter's value and the counter advances by one; a missing height is the width; the colour is blue |
| DeviceView.Electrode.Contains | python/gui/device_view.py:87-92 | the comparison of lines 88-89; ContainsIsInteriorOfOutline, EdgesNotContained and ContainsInDeviceUnits state its properties |
| DeviceView.ContainsIsInteriorOfOutline | python/gui/device_view.py:87-92 | `contains` holds iff the point lies strictly inside the rectangle `draw_electrode` (lines 69-71) draws at that scale |
| DeviceView.EdgesNotContained | python/gui/device_view.py:87-92 | a point on an edge of the drawn rectangle is never contained |
| DeviceView.ContainsInDeviceUnits | python/gui/device_view.py:87-92 | at a positive scale, `contains` is the open-rectangle test on the point divided by the scale |
| DeviceView.Fills | python/gui/device_view.py:60-71 | one fill per electrode, in list order, of its scaled rectangle with its own colour |
| DeviceView.Layout | python/gui/device_view.py:12-46 | the arguments of the 35 constructor calls in list order, a missing height left absent; BuildLayout and DeviceView.constructor build the electrodes from it |
| DeviceView.BuildLayout | python/gui/device_view.py:11-47 | one electrode per layout entry, each built as at lines 74-85, in order, fresh, with ids counting up from the counter's value and the entry's rectangle |
| DeviceView.DeviceView.constructor | python/gui/device_view.py:4-51 | scale 10 and a black background; 35 fresh electrodes with consecutive ids, each at its layout rectangle moved by (5, 5), and blue |
| DeviceView.DeviceView.Offset | python/gui/device_view.py:49-51 | every electrode moves by (5, 5) and keeps its extent and colour |
| DeviceView.DeviceView.Update | python/gui/device_view.py:60-67 | the fills of all electrodes, in list order, are appended to the pixmap; then a redraw is queued |

## Findings

| source | as written | input that shows it | evidently intended | confidence | as-written member | corrected member |
|---|---|---|---|---|---|---|
| microdrop/gui/dmf_device_controller.py:311 | the step whose state is compared with the new channels is `app.protocol[i]`, where `i` is the last index of the conversion loop, `len(channels) - 1`, not a step number | answer "3,4" on a protocol of one step: `app.protocol[1]` raises, and the bare `except` shows "Invalid channel." | read the current step's state, `app.protocol.current_step()`, as the rest of the handler does | not executed | ChannelState.EditProbesTokenCount | ChannelState.IntendedEditAccepts |

`ChannelState.EditOutcome` is the as-written edit, and `ChannelState.EditOutcomeIntended` is the corrected one. The controller's methods follow the code as written.

## Left out

- GTK: widgets, dialogs, file choosers, the popup menu, focus handling, and the exposure handler `on_expose`.
  - A dialog's answer is a parameter of `EditElectrodeChannels`.
  - The popup and the shell's error dialog become log events.
- The pymunk point query behind `get_clicked_electrode`. The clicked electrode is a parameter of `OnElectrodeClick`.
- `app.dmf_device.max_channel()`. `microdrop/gui/dmf_device.py` is not part of this model, so its answer is the parameter `maxChannel`.
- The plugin bus (`emit_signal`, `on_step_options_changed`, `on_step_run`, `on_dmf_device_changed`). The notification becomes an event in the controller's log. The plugins it reaches are not modelled.
- The video, OpenCV transform and cairo handlers, the device save/load handlers, and the other GTK glue.
- `on_edit_electrode_area`: area editing works on floats and a device class that is not part of this model.
- `DmfDeviceOptions(state_of_channels)`: the copying path uses `deepcopy`, which is never imported. The handlers always call it without an argument.
- The dictionary order in which `_update` visits the electrodes. It is the parameter `order`, which lists each electrode once.
- `microdrop/gui/experiment_log_controller.py` and `microdrop/gui/protocol_grid_controller.py`: these are not part of this model.
- Floating point.
  - DeviceView.ContainsInDeviceUnits: stated over the reals, so it ignores the rounding of Python floats.
  - DmfDeviceController.TranslateCoordsInverse: the same, stated over the reals.
- Electrode coordinates of the layout written as integers in the source are reals here; Python 2 mixes the two without difference for these values.
- DeviceView.BuildLayout: the list literal of 35 constructor calls is modelled as a loop over a table `Layout` of their arguments, in the same order.
- DeviceView.DeviceView.Update: cairo's path state and the pixmap's pixels are not modelled. The pixmap is represented by the list of (rectangle, colour) fills issued to it.
- The controller's `self.view` has `electrode_color`, `offset` and `transform_matrix`, so it is a different view class from the `DeviceView` of `python/gui/device_view.py`. Its class is not part of this model. Its colour table is the controller's `electrodeColor` field, and its `update()` is the `ViewRedrawn` event.
- `app.protocol[k]` is taken to index a Python list of the protocol's steps: a negative `k` counts from the end, and a `k` outside the list raises `IndexError`. The protocol class is not part of this model. See `ChannelState.ProbedState`.
- DmfDeviceController.Controller.Valid: it requires that no two steps share an options object or a state array. Shared objects are not modelled, so padding one step never changes another behind its back.
- DmfDeviceController.TranslateCoords: it requires a non-zero scale, so the `ZeroDivisionError` of a zero scale is not modelled.
- `maxChannel >= -1` on `GetStepOptions`, `OnElectrodeClick`, `Update` and `DeviceOptions`: a device whose `max_channel()` answered below -1 would give `np.zeros` a negative count and raise `ValueError`. That case is not modelled.
- DmfDeviceController.Controller.EditElectrodeChannels: it requires an electrode to have been clicked, like `ApplyAnswer` and `AssignChannels`. `last_electrode_clicked` starts as `None` (line 69), and line 297 reads `.channels` outside the `try`. So the handler called before any click dies with an uncaught `AttributeError`, and that case is not modelled.
- ChannelState.EditOutcome: it pads to any `max(channels)`, with unbounded memory. For a huge channel number such as "99999999999999", `np.zeros` at line 318 would raise `MemoryError` or `ValueError`, the bare `except` of line 321 would show "Invalid channel.", and the electrode would keep its list. The model accepts such an answer and pads every step instead.
