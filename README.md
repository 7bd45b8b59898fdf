# Soundboard: a Dafny model of its board, palette, shortcuts and session

This project models the core of `script.js`, the single script of a browser soundboard. The soundboard lets you record or upload short
sounds. Each sound becomes a button on a grid-snapped board. A button can be dragged in edit mode, renamed, recoloured
and bound to a keyboard shortcut. The whole board is saved to, and reloaded from, the `soundboardSession` slot of the
browser's storage. The model covers:

- **Placement** (`pixels.dfy`, module `Pixels`):
  - a dragged button's coordinate is the cursor minus the board origin, plus scroll, minus the grab offset;
  - it is snapped to the 8-pixel grid unless Shift is held, then raised to 0 if negative;
  - a new button's random grid cell;
  - the `"42px"` strings positions are stored as. `numerals.dfy` (module `Numerals`) supplies decimal and hexadecimal text with its round trips.
- **`ColorPicker._ensureHexColor`** (`hexcolor.dfy`, module `HexColor`): the digit runs of a colour and their conversion to
  `#rrggbb`.
- **The palette `BUTTON_COLORS`** (`colors.dfy`, module `Colors`): a class whose colours are updated in place.
  - The source has two identical key-by-key merge loops, in start-up (`loadCustomColors`) and in theme import; the model uses one method for both.
  - Also modelled: the theme reset, the picker's pencil edit, and the `customButtonColors` storage slot.
- **Keyboard shortcuts** (`shortcuts.dfy`, module `Shortcuts`):
  - the document's `keydown` listeners, each a button id and the key its handler waits for;
  - which listeners play on a key press;
  - their removal;
  - the shortcut dialog's key filter.
- **Editing rules** (`editing.dfy`, module `Editing`): rename, the upload name and the upload acceptance test.
- **Buttons and sessions** (`session.dfy`, module `Session`):
  - what `createButton` builds;
  - what `saveSession` records;
  - what `loadSession` recreates;
  - the bookkeeping invariant tying buttons to their registered handlers: unique ids, at most one handler per button, and every listener belonging to a button on the board.
- **The page itself** (`board.dfy`, module `Soundboard`): a class `Board`, one method per handler or top-level function, covering:
  - creation, drag, Shift and edit mode;
  - recording, where microphone access is a parameter;
  - the context menu actions and upload;
  - session save, load, import and export;
  - start-up and reset.

Randomness, dialog answers, the board's size and the browser's event coordinates are parameters.
`Choice` stands for the random palette index and grid cell of one `createButton` call. `Area` is the board's size.

Behaviour worth knowing:

- **Drag clamp:** a drag is clamped only at 0. Nothing keeps a button left of the board's right edge or above its bottom edge.
- **Shared keys:** two buttons may hold the same key, and both then play. Binding a key leaves other buttons' bindings alone.
- **Shortcut dialog:**
  - Escape cancels the shortcut dialog.
  - Tab, CapsLock, Shift, Control, Alt and Meta are passed over while the dialog stays open.
  - Every other key is bound.
- **Rebinding:** binding a button to the key it already has removes its handler and adds it again at the end of the listener list.
- **Import:** the file's text is stored as it is and then loaded, with no check of its contents first.
- **Colours:** no colour is validated. Imported palette colours and the custom input's value are used as they are. A swatch's colour passes through `_ensureHexColor`.

## Model

| member | source | states |
|---|---|---|
| Pixels.Snap | script.js:360-363 | the result is a multiple of GRID_SIZE (8) less than 4 below and at most 4 above the input, i.e. the nearest grid point with halves rounded up |
| Pixels.SnapIsNearest | script.js:360-363 | any multiple of 8 that near the input is Snap's result, so the snap is uniquely determined |
| Pixels.SnapKeepsGridPoints | script.js:360-363 | a coordinate already on the grid is not moved by snapping |
| Pixels.SnapIdempotent | script.js:360-363 | snapping twice is snapping once |
| Pixels.DragCoordinate | script.js:356-367 | with Shift held the coordinate is the candidate raised to 0; otherwise it is on the grid, never negative, within 4 px of a candidate >= -4, and 0 for a candidate below -4; no upper bound is applied |
| Pixels.DragCoordinateOnGrid | script.js:356-367 | a snapped drag coordinate is a fixed point of Snap |
| Pixels.InitialCellOnBoard | script.js:299-304 | a cell in one of the first six columns (or first two rows) lies on the board and its origin is a whole number of cells from the edge |
| Pixels.Px | script.js:385-386 | the CSS length `${n}px`: decimal digits without a leading zero followed by "px" |
| Pixels.PxValue | script.js:385-386 | a string reads as a pixel count exactly when it is decimal digits followed by "px", and the count is the digits' value |
| Pixels.PxRoundTrip | script.js:385-386 | the `${n}px` string of a non-negative pixel count reads back as that count |
| Pixels.PxInjective | script.js:385-386 | distinct pixel counts give distinct CSS strings |
| Numerals.Decimal | script.js:385-386 | `${n}` of a non-negative integer: a non-empty string of decimal digits with no leading zero, one digit exactly below 10 |
| Numerals.DecimalValue | script.js:580 | `parseInt` of a string of decimal digits, read exactly; DecimalRoundTrip reads back `Decimal(n)` as n |
| Numerals.DecimalRoundTrip | script.js:385-386 | a number's decimal digits read back as the number |
| Numerals.Hex | script.js:580 | `toString(16)`: non-empty lower-case hex digits with no leading zero, one digit exactly below 16 and two exactly from 16 to 255 |
| Numerals.HexRoundTrip | script.js:580 | `toString(16)` of a number is lower-case hex digits that read back as the number |
| HexColor.StartsWithHash | script.js:570 | `color.startsWith('#')`: a non-empty string whose first character is `#` |
| HexColor.LeadingDigits | script.js:574 | the length of the longest all-digit prefix: its prefix is digits and the next character is not |
| HexColor.DigitRuns | script.js:574 | every run `match(/\d+/g)` returns is non-empty and made of digits |
| HexColor.EnsureHexColor | script.js:569-585 | a colour starting with `#` comes back unchanged; one whose digit-run count is not 3 comes back unchanged; three runs give a result starting with `#` |
| HexColor.Hex2 | script.js:579-582 | a component padded with a leading zero to at least two lower-case hex digits; exactly two iff it is below 256, with no leading zero when longer |
| HexColor.Hex2RoundTrip | script.js:579-582 | a component up to 255 is padded to exactly two hex digits that read back as it |
| HexColor.Hex2Length | script.js:579-582 | the padded component has at least two digits, and more than two for a value above 255 |
| HexColor.EnsureHexOfThreeComponents | script.js:574-584 | three runs each up to 255 give `#` plus six lower-case hex digits whose three pairs read back as the three values |
| HexColor.EnsureHexOfLargeComponent | script.js:579-584 | a component above 255 yields a string longer than `#rrggbb` |
| HexColor.EnsureHexIdempotent | script.js:569-585 | converting a converted colour changes nothing |
| HexColor.RunsSkipNonDigits | script.js:574 | a digit-free prefix contributes no run |
| HexColor.LeadingDigitsOfRun | script.js:574 | a run of digits followed by a non-digit is measured exactly |
| HexColor.RunsTakeRun | script.js:574 | a leading run of digits is the first match and the rest is matched after it |
| HexColor.RunsAfterSeparator | script.js:574 | after a digit-free separator the next run is the following digits |
| HexColor.DigitRunsOfRgb | script.js:574 | the runs of `rgb(r, g, b)` are exactly the three decimal components |
| HexColor.EnsureHexOfRgb | script.js:569-585 | the browser form `rgb(r, g, b)` with components up to 255 becomes the `#rrggbb` colour of exactly those components |
| Colors.PaletteKeysMatchDefaults | script.js:7-16 | the eight palette names listed in key order are exactly the default palette's names |
| Colors.Merged | script.js:57-61 | the merged palette has the same names; a name takes the loaded colour exactly when that colour is present and non-empty, and keeps its own otherwise; extra loaded names are ignored |
| Colors.MergedOnStep | script.js:57-61 | one iteration of the merge loop overwrites the visited name exactly when its loaded colour is truthy |
| Colors.MergedOnAll | script.js:57-61 | once every name has been visited the loop's palette is the merged palette |
| Colors.MergeIdempotent | script.js:57-61 | merging the same overrides twice is merging them once |
| Colors.ValuesOf | script.js:265 | `Object.values` lists one colour per name, in key order |
| Colors.Palette.constructor | script.js:7-16 | the page starts with the default palette and the storage slot as found |
| Colors.Palette.Values | script.js:265 | eight colours, each one of the palette's |
| Colors.Palette.SaveCustomColors | script.js:67-69 | the slot then holds the whole current palette |
| Colors.Palette.MergeOverrides | script.js:57-61 | the in-place loop leaves the palette equal to Merged of the old palette and the overrides, keeping its names |
| Colors.Palette.LoadCustomColors | script.js:52-63 | with a saved palette the colours become the merge of it; without one nothing changes; nothing is written back |
| Colors.Palette.ImportColors | script.js:174-182 | a file with colours merges them and saves the palette; a file without leaves palette and slot as they were |
| Colors.Palette.Reset | script.js:119-136 | when confirmed the palette is exactly the eight defaults and is saved; otherwise nothing changes |
| Colors.Palette.EditColor | script.js:525-528 | exactly the edited name changes, to the chosen colour, and the palette is saved |
| Shortcuts.CaptureStep | script.js:671-683 | Escape cancels, exactly the six system keys are ignored, any other key is bound as pressed |
| Shortcuts.Plays | script.js:736 | a handler plays only for its own key, never while recording or when the target is an INPUT, and always otherwise |
| Shortcuts.Fired | script.js:735-739 | a button plays on a key press iff one of its listeners waits for that key, no recording is under way and the target is not an INPUT |
| Shortcuts.WithoutOwners | script.js:747-752 | a listener survives removal iff it was registered and its button is not among those removed |
| Shortcuts.FiredAppend | script.js:743 | listeners run in registration order: a key press on `a + b` plays `a`'s owners, then `b`'s, each as often as it has a matching listener |
| Shortcuts.FiredOne | script.js:735-739 | one listener plays its owner once when its key matches and nothing otherwise |
| Shortcuts.WithoutOwnersAppend | script.js:732 | removal keeps the remaining listeners in their registration order |
| Shortcuts.WithoutOwnersKeepsOthers | script.js:748-751 | removing handlers of buttons that have none leaves the listener list unchanged |
| Shortcuts.WithoutOwnersTwice | script.js:747-752 | removing two groups one after the other is removing their union |
| Shortcuts.WithoutOwnersIdempotent | script.js:747-752 | `removeKeyboardShortcut` twice leaves the listeners as once does |
| Shortcuts.WithoutOwnersKeepsDistinct | script.js:729-752 | removal keeps each button to at most one listener |
| Shortcuts.AppendKeepsDistinct | script.js:742-743 | adding a listener for a button that has none keeps each button to at most one |
| Editing.Renamed | script.js:608-613 | a non-empty answer replaces the name; a cancelled or empty one keeps it; a named button never loses its name |
| Editing.UploadAccepted | script.js:902 | a file is accepted exactly when its MIME type starts with `audio/` and its size is at most 15 360 000 bytes |
| Editing.UploadName | script.js:904 | the name is a dot-free prefix of the file name that stops at the first dot or at the end |
| Editing.UploadNameUnique | script.js:904 | any prefix with those three properties is the upload name, so they define it |
| Session.SnapshotOf | script.js:773-780 | the record keeps the button's name, shown shortcut, audio, colour and its `left`/`top` as the position; it is placed and coloured iff the colour is non-empty |
| Session.Snapshot | script.js:772-781 | one record per button, in board order, holding that button's name, shown shortcut, position, audio and colour |
| Session.NewButton | script.js:260-305 | the button `createButton` builds has the given id, name, audio and shortcut, and holds a handler exactly when the shortcut is non-empty, for that key |
| Session.HandlerFor | script.js:308 | a handler is added exactly for a non-empty shortcut, and it waits for that key |
| Session.InitialPosition | script.js:299-304 | the `px` strings of the origin of grid cell (column, row) |
| Session.InitialPositionOfCell | script.js:299-304 | the initial position reads back as column times cell width and row times cell height |
| Session.DefaultColor | script.js:265 | a non-empty colour is kept exactly; an empty one is replaced by one of the current palette's colours |
| Session.NewButtonPlacement | script.js:295-305 | a stored position is copied unchanged; otherwise left and top are `px` strings of column times cell width (first six columns) and row times cell height (first two rows), and that grid cell lies on the board (the button's own size is not modelled) |
| Session.Restored | script.js:797-803 | the button the `createButton` call for one record builds, with the record's audio, shortcut, name, position and colour |
| Session.Restore | script.js:796-804 | one button per record, in stored order, each the button createButton makes of that record with consecutive ids |
| Session.RestorePointwise | script.js:796-804 | buttons that agree with the records index by index are the recreated session |
| Session.RestoreSnapshot | script.js:772-805 | a reload keeps each record's name, shortcut and audio, its position if it had one and its colour if non-empty (else a palette colour) |
| Session.RestoreRoundTrip | script.js:772-805 | saving right after loading reproduces the loaded records field for field when each has a position and a colour |
| Session.ReloadKeepsSession | script.js:772-805 | a saved board whose buttons all have a colour survives save, reload, save unchanged |
| Session.IndexOf | script.js:385-386 | finds the position of the button with an id, or reports that no button has it |
| Session.ListenersOfAppend | script.js:307-308 | creating a button adds its handler, if any, after all earlier ones |
| Session.NoListenerWithoutHandler | script.js:748-751 | a button with no handler has no listener to remove |
| Session.AddButtonKeeps | script.js:307 | appending a fresh button keeps the bookkeeping invariant |
| Session.AppendButtonKeeps | script.js:307-308 | appending a fresh button with its handler keeps the invariant, listeners on the board and shown shortcuts |
| Session.BindKeeps | script.js:729-744 | replacing a button's handler keeps ids unique and each button to one registered handler |
| Session.RebindKeeps | script.js:685-690 | setting a new shortcut keeps the invariant and shown shortcut agreeing with the handler |
| Session.UnbindKeeps | script.js:747-752 | removing a handler keeps the invariant and the board's ids |
| Session.EditKeeps | script.js:607-613 | changing a button's name, audio, colour or position keeps the invariant |
| Session.RemoveButtonKeeps | script.js:719 | removing a handler-free button removes exactly its id and keeps the invariant |
| Session.IdsWithout | script.js:719 | removing a button removes exactly its id from the board's ids |
| Session.DeleteKeeps | script.js:715-721 | removing the handler and then the button keeps the invariant, listeners on the board and shown shortcuts |
| Session.ClearedBoardHasNoListeners | script.js:718 | once every button's handler is removed no listener remains |
| Session.FiredIffBound | script.js:735-739 | a key press plays exactly the buttons on the board whose handler waits for that key, unless recording or typing in an INPUT |
| Soundboard.PickedColor | script.js:508-545 | a swatch's colour goes through `_ensureHexColor`, the custom input's value is used as it is |
| Soundboard.Board.constructor | script.js:26-36 | the page starts empty, in play mode, with nothing dragged and the storage as found |
| Soundboard.Board.SaveSession | script.js:771-784 | the slot holds the snapshot of the board |
| Soundboard.Board.AddKeyboardShortcut | script.js:729-744 | the button's previous listener is gone and exactly one listener for the key is added last; the invariant is kept |
| Soundboard.Board.RemoveKeyboardShortcut | script.js:747-752 | the button's listener, if any, is gone and its handler cleared; the invariant is kept |
| Soundboard.Board.CreateButton | script.js:260-311 | the new button (fresh id, default colour, initial position) goes last with its handler registered last, and the session is saved |
| Soundboard.Board.AppendButton | script.js:307-308 | the button is appended and its handler registered, keeping the invariant |
| Soundboard.Board.ClearButtons | script.js:792-794 | the board is emptied with each handler released first, as Delete does at script.js:718, so no listener remains |
| Soundboard.Board.ClearButtonsAsWritten | script.js:792-794 | the board is emptied but the listener list is left as it was |
| Soundboard.Board.LoadSession | script.js:787-805 | no stored session changes nothing; otherwise the board becomes the restored records in order with their handlers, and a session of placed, coloured records is stored back unchanged |
| Soundboard.Board.CreateAll | script.js:796-804 | creating the records one by one on an empty board gives the restored session, with handlers in board order |
| Soundboard.Board.CreateNext | script.js:797-803 | one iteration extends the recreated prefix by the next record's button |
| Soundboard.Board.Start | script.js:922-925 | the session is loaded before the saved palette is merged, so restored buttons draw default colours from the palette as it was before the merge |
| Soundboard.Board.Import | script.js:874-892 | the file's session replaces the stored one and is loaded; a session of placed, coloured records is stored exactly as imported |
| Soundboard.Board.Export | script.js:859-871 | the exported file is the stored session as it is |
| Soundboard.Board.ResetSoundboard | script.js:930-939 | when confirmed no button, no listener and no stored session remain; otherwise nothing changes |
| Soundboard.Board.MouseDown | script.js:271-283 | in edit mode a primary press starts dragging the button and records the grab offset; in play mode it plays the button's audio; other presses do nothing |
| Soundboard.Board.MouseMove | script.js:346-387 | only the dragged button moves, to the `px` strings of DragCoordinate; every other button is unchanged |
| Soundboard.Board.MouseUp | script.js:389-395 | a drag ends and the session is saved; with no drag nothing happens |
| Soundboard.Board.ShiftKey | script.js:332-344 | Shift down turns free placement on, Shift up off; other keys change nothing |
| Soundboard.Board.ToggleEditMode | script.js:852-856 | edit mode flips |
| Soundboard.Board.KeyPress | script.js:735-739 | the buttons that play are exactly those whose handler waits for the key, unless recording or typing in an INPUT |
| Soundboard.Board.StartRecording | script.js:221-246 | recording starts when the microphone is granted; a refusal changes nothing |
| Soundboard.Board.StopRecording | script.js:249-256 | only a running recorder is stopped |
| Soundboard.Board.RecordingFinished | script.js:231-234 | a finished recording becomes a new button named "Sound" with no shortcut, and the session is saved |
| Soundboard.Board.Rename | script.js:607-615 | only a non-empty answer renames, and only then is the session saved |
| Soundboard.Board.ReplaceAudio | script.js:617-629 | the new recording replaces exactly that button's audio and the session is saved |
| Soundboard.Board.CaptureKey | script.js:671-694 | Escape and the system keys change nothing; any other key replaces the button's handler and shown shortcut and saves the session |
| Soundboard.Board.SetShortcut | script.js:685-690 | the old handler goes, one for the new key is added last, and the button shows the key |
| Soundboard.Board.RemoveShortcut | script.js:698-703 | the handler goes, the shown shortcut is cleared and the session is saved |
| Soundboard.Board.ChangeColor | script.js:705-713 | the picked colour becomes exactly that button's colour and the session is saved |
| Soundboard.Board.Delete | script.js:715-723 | when confirmed exactly that button and its listener go and the session is saved; otherwise nothing changes |
| Soundboard.Board.Upload | script.js:900-909 | exactly an audio file of at most 15000·1024 bytes is accepted, becoming a button named by the file name before its first dot; anything else changes nothing |
| Soundboard.StaleShortcutWitness | script.js:933-936 | after a button bound to "a" is cleared as the source clears the board, the board is empty yet "a" still plays that button |
| Soundboard.ClearedShortcutWitness | script.js:715-719 | the same board cleared with handlers released plays nothing on "a" |

## Left out

- Audio is not modelled.
  - Left out: `getUserMedia`, `MediaRecorder`, `playAudio`, and the Blob, FileReader, base64 and `fetch` conversions.
  - Audio is an opaque string.
  - Microphone access and whether a recorder is running are boolean parameters.
  - The recording's completion is a separate method.
- JSON text is not modelled. `JSON.parse` / `JSON.stringify` are foreign calls.
  - Sessions and palettes are structured values.
  - A palette file that does not parse is caught by the theme import (script.js:169-186) and changes nothing, which is `ImportColors(None)`.
  - For a session, `None` stands for an empty slot or a file holding `null`, which `loadSession` treats as no session (script.js:788-789).
  - Malformed session text is outside the model. The import (script.js:883-886) has no `try`: it stores the text, then the `JSON.parse` at script.js:788 throws before the clear. The board stays as it was, the slot keeps the bad text, and Export writes it out. On the next start-up the same throw at script.js:923 stops `ThemeManager.init`, `loadCustomColors` and the reset wiring (script.js:924-941) from running.
  - A JSON session value without a `buttons` array (such as `{}`) is outside the model too. The loop at script.js:792-794 empties the board, then script.js:796 throws, leaving an empty board with the old handlers still registered.
  - Non-string colour values in a palette file are not representable.
- DOM rendering is not modelled: `updateButtonContent` markup, styles, the picker modal, the context menu and the settings menu.
  - The shortcut a button shows is its `shortcut` field.
- The theme part of `ThemeManager` is not modelled: `loadTheme`, `applyTheme`, `exportTheme` and the theme colours. Only its palette effects are modelled.
- `confirm`, `prompt` and `alert` become parameters (`confirmed`, `answer`).
- Randomness is a parameter. `Math.random` becomes `Choice`, whose bounds are `ChoicesFit`.
- Pixel values are modelled as integers, although the browser's are doubles.
  - Offsets come from `parseFloat`, and the cell size is `width / 8` with the fraction truncated.
  - CSS normalisation of `style.left` is not modelled.
  - Rounding is `Math.round` with halves going up.
  - Numerals are exact. `parseInt` at script.js:580 yields a double, so it rounds a digit run above 2^53. A template literal at script.js:385 writes a number of 1e21 or more in exponent form. `DecimalValue` and `Decimal` model neither.
- The context menu's `!isEditMode` gate and the `selectedButton` global are not modelled. A context-menu action takes the button's index.
- `draggedButton` is kept as the dragged button's id. The grab offset is two board fields rather than data on the button.
- Edge auto-scroll (script.js:370-383) is left out. It is a view side effect.
- The autosave timer (script.js:945) is not modelled. `SaveSession` is the same operation and can be called at any point.
- The shortcut dialog's own `keydown` listener is not modelled.
  - Its Cancel button, removal and interleaving with shortcut handlers during capture are left out.
  - `CaptureKey` models one dialog key press at a time.
- Soundboard.Board.LoadSession: clears the board the corrected way: see Findings. The source's clear is `Soundboard.Board.ClearButtonsAsWritten`. Soundboard.Board.KeyPress and Session.FiredIffBound play exactly the board's bound buttons only because of this corrected clear. In the source a button removed by a reload still plays.
- Soundboard.Board.Import: inherits the corrected clear from LoadSession. In the source the import stores the text and calls `loadSession` (script.js:884-885), whose clear leaves the old buttons' handlers registered. So `listeners == ListenersOf(buttons)` holds for the corrected model only; with the code as written the old buttons' listeners stay in front.
- Soundboard.Board.ResetSoundboard: clears the board the corrected way: see Findings. Here too, the board-only guarantee of Soundboard.Board.KeyPress depends on the corrected clear. In the source, after a confirmed reset a removed button still plays; `Soundboard.StaleShortcutWitness` exhibits this.
- Soundboard.Board.Start: states the buttons (through LoadSession) and the palette, not the listeners and the session slot after start-up.

## Findings

| source | as written | input that shows it | evidently intended | confidence | as-written member | corrected member |
|---|---|---|---|---|---|---|
| script.js:792-794 | `loadSession` (and the reset button at script.js:933-936) take buttons off the board without `removeKeyboardShortcut`, so their `keydown` handlers stay registered | bind "a" to a button, then reset: the board is empty but pressing "a" still plays the removed sound (exhibited by the as-written member). Not exhibited by any member: importing that session again while the button is on the board leaves its old handler beside the new one, so "a" plays twice | release each handler when its button is removed, as Delete does at script.js:718 | not executed | Soundboard.Board.ClearButtonsAsWritten | Soundboard.Board.ClearButtons |
