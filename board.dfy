/**
 * The soundboard page: the buttons on the board, the `keydown` listeners
 * registered on the document, the `soundboardSession` storage slot, and
 * the mode flags the event handlers read. Each method is one handler or
 * one top-level function of the page.
 */
module Soundboard {
  import opened Wrappers
  import opened Shortcuts
  import opened Session
  import Pixels
  import Colors
  import Editing
  import HexColor

  /** A file picked for upload: its name, MIME type and size in bytes (the contents arrive as `audio`). */
  datatype AudioFile = AudioFile(name: string, mimeType: string, size: nat)

  /** How a colour was chosen in the picker: one of the palette swatches, or the custom colour input. */
  datatype ColorPick = Swatch(color: string) | Custom(value: string)

  /** The colour a pick gives: a swatch's colour is passed through `_ensureHexColor`, the input's value as it is. */
  function PickedColor(p: ColorPick): (c: string)
    ensures p.Swatch? ==> c == HexColor.EnsureHexColor(p.color)
    ensures p.Custom? ==> c == p.value
  {
    match p
    case Swatch(color) => HexColor.EnsureHexColor(color)
    case Custom(value) => value
  }

  class Board {
    const palette: Colors.Palette
    var buttons: seq<Button>
    var listeners: seq<Listener>
    /** The id the next button gets; ids stand for the identity of button elements. */
    var nextId: nat
    /** The `soundboardSession` storage slot. */
    var stored: Option<seq<Record>>
    var isEditMode: bool
    var isRecording: bool
    var isShiftPressed: bool
    /** `draggedButton`, by id. */
    var dragged: Option<nat>
    /** The cursor's offset inside the dragged button when the drag began. */
    var offsetX: int
    var offsetY: int

    /**
     * Ids are unique, every listener belongs to a button on the board and
     * is that button's only one, and each button shows the key its handler
     * waits for.
     */
    ghost predicate Valid()
      reads this
    {
      && Registered(buttons, listeners, nextId)
      && OwnersOnBoard(buttons, listeners)
      && ShortcutsShown(buttons)
    }

    /** The page as it is first built: an empty board in play mode, with whatever the storage slots hold. */
    constructor (palette: Colors.Palette, stored: Option<seq<Record>>)
      ensures Valid()
      ensures this.palette == palette && this.stored == stored
      ensures buttons == [] && listeners == [] && nextId == 0
      ensures !isEditMode && !isRecording && !isShiftPressed && dragged == None
    {
      this.palette := palette;
      this.stored := stored;
      buttons := [];
      listeners := [];
      nextId := 0;
      isEditMode := false;
      isRecording := false;
      isShiftPressed := false;
      dragged := None;
      offsetX := 0;
      offsetY := 0;
    }

    /** `saveSession`: the slot holds one record per button, in board order. */
    method SaveSession()
      modifies this`stored
      ensures stored == Some(Snapshot(buttons))
    {
      stored := Some(Snapshot(buttons));
    }

    /** `addKeyboardShortcut`: the button's old handler, if any, is removed and a handler for `key` added last. */
    method AddKeyboardShortcut(i: nat, key: string)
      requires Registered(buttons, listeners, nextId) && i < |buttons|
      modifies this`buttons, this`listeners
      ensures Registered(buttons, listeners, nextId)
      ensures OwnersOnBoard(old(buttons), old(listeners)) ==> OwnersOnBoard(buttons, listeners)
      ensures buttons == old(buttons)[i := old(buttons)[i].(keyHandler := Some(key))]
      ensures listeners == WithoutOwners(old(listeners), {old(buttons)[i].id}) + [Listener(old(buttons)[i].id, key)]
    {
      var b := buttons[i];
      BindKeeps(buttons, listeners, nextId, i, key);
      if b.keyHandler.Some? {
        listeners := WithoutOwners(listeners, {b.id});
      } else {
        NoListenerWithoutHandler(buttons, listeners, i);
      }
      buttons := buttons[i := b.(keyHandler := Some(key))];
      listeners := listeners + [Listener(b.id, key)];
    }

    /** `removeKeyboardShortcut`: the button's handler, if any, is removed and forgotten. */
    method RemoveKeyboardShortcut(i: nat)
      requires Registered(buttons, listeners, nextId) && i < |buttons|
      modifies this`buttons, this`listeners
      ensures Registered(buttons, listeners, nextId)
      ensures OwnersOnBoard(old(buttons), old(listeners)) ==> OwnersOnBoard(buttons, listeners)
      ensures buttons == old(buttons)[i := old(buttons)[i].(keyHandler := None)]
      ensures listeners == WithoutOwners(old(listeners), {old(buttons)[i].id})
    {
      var b := buttons[i];
      UnbindKeeps(buttons, listeners, nextId, i);
      if b.keyHandler.Some? {
        listeners := WithoutOwners(listeners, {b.id});
        buttons := buttons[i := b.(keyHandler := None)];
      } else {
        NoListenerWithoutHandler(buttons, listeners, i);
        assert buttons == buttons[i := b.(keyHandler := None)];
      }
    }

    /**
     * `createButton`: the new button goes last, with a handler when the
     * shortcut is non-empty, and the session is saved. `choice` stands for
     * the random palette index and grid cell.
     */
    method CreateButton(audio: string, shortcutKey: string, name: string, position: Option<Position>,
                        color: string, choice: Choice, area: Area)
      requires Valid() && palette.Valid()
      requires ChoiceFits(choice, |Colors.PaletteKeys|)
      modifies this`buttons, this`listeners, this`nextId, this`stored
      ensures Valid()
      ensures nextId == old(nextId) + 1
      ensures buttons == old(buttons) + [NewButton(old(nextId), audio, shortcutKey, name, position, color, choice, old(palette.Values()), area)]
      ensures listeners == old(listeners) + HandlerListeners(buttons[|buttons| - 1])
      ensures stored == Some(Snapshot(buttons))
    {
      var values := palette.Values();
      var b := NewButton(nextId, audio, shortcutKey, name, position, color, choice, values, area);
      AppendButton(b);
      SaveSession();
    }

    /** `soundboard.appendChild(button)`, then `addKeyboardShortcut` when the button has a shortcut. */
    method AppendButton(b: Button)
      requires Valid() && b.id == nextId && ShortcutShown(b)
      modifies this`buttons, this`listeners, this`nextId
      ensures Valid()
      ensures buttons == old(buttons) + [b]
      ensures listeners == old(listeners) + HandlerListeners(b)
      ensures nextId == old(nextId) + 1
    {
      ghost var bs0, ls0 := buttons, listeners;
      AppendButtonKeeps(bs0, ls0, nextId, b);
      AddButtonKeeps(buttons, listeners, nextId, b.(keyHandler := None));
      buttons := buttons + [b.(keyHandler := None)];
      nextId := nextId + 1;
      if b.keyHandler.Some? {
        WithoutOwnersKeepsOthers(listeners, {b.id});
        AddKeyboardShortcut(|buttons| - 1, b.keyHandler.value);
        assert buttons == bs0 + [b];
      } else {
        assert buttons == bs0 + [b];
      }
    }

    /**
     * Takes every button off the board, removing each one's handler first,
     * so that no listener is left behind.
     */
    method ClearButtons()
      requires Valid()
      modifies this`buttons, this`listeners
      ensures Valid()
      ensures buttons == [] && listeners == []
    {
      while |buttons| > 0
        invariant Valid()
        decreases |buttons|
      {
        RemoveKeyboardShortcut(0);
        RemoveButtonKeeps(buttons, listeners, nextId, 0);
        assert buttons[..0] + buttons[1..] == buttons[1..];
        buttons := buttons[1..];
      }
      ClearedBoardHasNoListeners(buttons, listeners);
      WithoutOwnersKeepsOthers(listeners, Ids(buttons));
    }

    /**
     * The removal loop of `loadSession` and of the reset button, which takes
     * the first button off the board until none is left: the buttons go,
     * their listeners stay registered.
     */
    method ClearButtonsAsWritten()
      requires Valid()
      modifies this`buttons
      ensures Registered(buttons, listeners, nextId)
      ensures buttons == [] && listeners == old(listeners)
    {
      while |buttons| > 0
        decreases |buttons|
      {
        buttons := buttons[1..];
      }
    }

    /**
     * `loadSession`: with no session stored nothing happens; otherwise the
     * board is cleared and one button is created per record, in order, each
     * creation saving the session again. A record with a position and a
     * colour comes back exactly as it was saved.
     */
    method LoadSession(choices: seq<Choice>, area: Area)
      requires Valid() && palette.Valid()
      requires stored.Some? ==> |choices| == |stored.value|
      requires ChoicesFit(choices, |Colors.PaletteKeys|)
      modifies this`buttons, this`listeners, this`nextId, this`stored
      ensures Valid()
      ensures old(stored).None? ==>
        buttons == old(buttons) && listeners == old(listeners) && nextId == old(nextId) && stored == None
      ensures old(stored).Some? ==>
        && buttons == Restore(old(stored).value, choices, palette.Values(), area, old(nextId))
        && nextId == old(nextId) + |old(stored).value|
        && listeners == ListenersOf(buttons)
        && stored == Some(Snapshot(buttons))
      ensures old(stored).Some? && (forall i :: 0 <= i < |old(stored).value| ==> PlacedAndColored(old(stored).value[i])) ==>
        stored == old(stored)
    {
      if stored.None? {
        return;
      }
      var records := stored.value;
      ClearButtons();
      CreateAll(records, choices, area);
      if forall i :: 0 <= i < |records| ==> PlacedAndColored(records[i]) {
        RestoreRoundTrip(records, choices, palette.Values(), area, old(nextId));
      }
    }

    /** The `session.buttons.forEach(... createButton ...)` loop of `loadSession`, on an empty board. */
    method CreateAll(records: seq<Record>, choices: seq<Choice>, area: Area)
      requires Valid() && palette.Valid()
      requires buttons == [] && listeners == []
      requires |choices| == |records| && ChoicesFit(choices, |Colors.PaletteKeys|)
      modifies this`buttons, this`listeners, this`nextId, this`stored
      ensures Valid()
      ensures buttons == Restore(records, choices, palette.Values(), area, old(nextId))
      ensures nextId == old(nextId) + |records|
      ensures listeners == ListenersOf(buttons)
      ensures stored == if records == [] then old(stored) else Some(Snapshot(buttons))
    {
      ghost var values := palette.Values();
      ghost var firstId := nextId;
      var k := 0;
      while k < |records|
        invariant 0 <= k <= |records|
        invariant LoadedUpTo(records, choices, area, values, firstId, k, old(stored))
      {
        CreateNext(records, choices, area, values, firstId, k, old(stored));
        k := k + 1;
      }
      RestorePointwise(records, choices, values, area, firstId, buttons);
    }

    /** The state of the board after `loadSession` has created the buttons of the first `k` records. */
    ghost predicate LoadedUpTo(records: seq<Record>, choices: seq<Choice>, area: Area, values: seq<string>,
                               firstId: nat, k: nat, stored0: Option<seq<Record>>)
      reads this, palette
      requires |choices| == |records| && ChoicesFit(choices, |values|) && k <= |records|
    {
      && Valid() && palette.Valid() && palette.Values() == values
      && nextId == firstId + k
      && |buttons| == k
      && (forall j :: 0 <= j < k ==> buttons[j] == Restored(records[j], choices[j], values, area, firstId + j))
      && listeners == ListenersOf(buttons)
      && stored == if k == 0 then stored0 else Some(Snapshot(buttons))
    }

    /** One step of the loop: `createButton` for record `k`. */
    method CreateNext(records: seq<Record>, choices: seq<Choice>, area: Area, ghost values: seq<string>,
                      ghost firstId: nat, k: nat, ghost stored0: Option<seq<Record>>)
      requires |choices| == |records| && ChoicesFit(choices, |Colors.PaletteKeys|) && k < |records|
      requires |values| == |Colors.PaletteKeys|
      requires LoadedUpTo(records, choices, area, values, firstId, k, stored0)
      modifies this`buttons, this`listeners, this`nextId, this`stored
      ensures LoadedUpTo(records, choices, area, values, firstId, k + 1, stored0)
    {
      var r := records[k];
      ghost var before := buttons;
      assert ChoiceFits(choices[k], |Colors.PaletteKeys|);
      label L:
      CreateButton(r.audio, r.shortcut, r.name, r.position, r.color, choices[k], area);
      ghost var made := Restored(records[k], choices[k], values, area, firstId + k);
      assert made == NewButton(old@L(nextId), r.audio, r.shortcut, r.name, r.position, r.color, choices[k],
                               old@L(palette.Values()), area);
      assert buttons == before + [made];
      assert palette.Values() == values;
      forall j | 0 <= j < k + 1
        ensures buttons[j] == Restored(records[j], choices[j], values, area, firstId + j)
      {
        if j < k {
          assert buttons[j] == before[j];
        }
      }
      ListenersOfAppend(before, made);
    }

    /** Page start-up: the stored session is loaded first, the saved custom palette merged after it. */
    method Start(choices: seq<Choice>, area: Area)
      requires Valid() && palette.Valid()
      requires stored.Some? ==> |choices| == |stored.value|
      requires ChoicesFit(choices, |Colors.PaletteKeys|)
      modifies this`buttons, this`listeners, this`nextId, this`stored, palette`colors
      ensures Valid() && palette.Valid()
      ensures old(stored).Some? ==>
        buttons == Restore(old(stored).value, choices, old(palette.Values()), area, old(nextId))
      ensures palette.colors ==
        if palette.saved.Some? then Colors.Merged(old(palette.colors), palette.saved.value) else old(palette.colors)
    {
      LoadSession(choices, area);
      palette.LoadCustomColors();
    }

    /** The Import button: the file's session replaces the stored one and is loaded (`None`: a file holding `null`). */
    method Import(doc: Option<seq<Record>>, choices: seq<Choice>, area: Area)
      requires Valid() && palette.Valid()
      requires doc.Some? ==> |choices| == |doc.value|
      requires ChoicesFit(choices, |Colors.PaletteKeys|)
      modifies this`buttons, this`listeners, this`nextId, this`stored
      ensures Valid()
      ensures doc.None? ==>
        buttons == old(buttons) && listeners == old(listeners) && nextId == old(nextId) && stored == None
      ensures doc.Some? ==>
        && buttons == Restore(doc.value, choices, palette.Values(), area, old(nextId))
        && listeners == ListenersOf(buttons)
        && stored == Some(Snapshot(buttons))
      ensures doc.Some? && (forall i :: 0 <= i < |doc.value| ==> PlacedAndColored(doc.value[i])) ==> stored == doc
    {
      stored := doc;
      LoadSession(choices, area);
    }

    /** The Export button: the stored session, as it is, goes to the downloaded file. */
    method Export() returns (file: Option<seq<Record>>)
      ensures file == stored
    {
      file := stored;
    }

    /** The reset button, when confirmed: every button goes, with its handler, and the stored session is removed. */
    method ResetSoundboard(confirmed: bool)
      requires Valid()
      modifies this`buttons, this`listeners, this`stored
      ensures Valid()
      ensures confirmed ==> buttons == [] && listeners == [] && stored == None
      ensures !confirmed ==> buttons == old(buttons) && listeners == old(listeners) && stored == old(stored)
    {
      if confirmed {
        ClearButtons();
        stored := None;
      }
    }

    // ---- cursor and keyboard ----

    /** `mousedown` on a button with the given button index: a drag begins in edit mode, the sound plays otherwise. */
    method MouseDown(i: nat, primary: bool, clientX: int, clientY: int, rectLeft: int, rectTop: int)
      returns (played: Option<string>)
      requires i < |buttons|
      modifies this`dragged, this`offsetX, this`offsetY
      ensures isEditMode && primary ==>
        played == None && dragged == Some(buttons[i].id) && offsetX == clientX - rectLeft && offsetY == clientY - rectTop
      ensures !isEditMode && primary ==>
        played == Some(buttons[i].audio) && dragged == old(dragged) && offsetX == old(offsetX) && offsetY == old(offsetY)
      ensures !primary ==>
        played == None && dragged == old(dragged) && offsetX == old(offsetX) && offsetY == old(offsetY)
    {
      played := None;
      if isEditMode && primary {
        dragged := Some(buttons[i].id);
        offsetX := clientX - rectLeft;
        offsetY := clientY - rectTop;
      } else if !isEditMode && primary {
        played := Some(buttons[i].audio);
      }
    }

    /**
     * `mousemove`: only the dragged button moves, to the cursor less the
     * grab offset, snapped to the grid unless Shift is held, never left of or
     * above the board's origin. Nothing is saved.
     */
    method MouseMove(clientX: int, clientY: int, boardLeft: int, boardTop: int, scrollLeft: int, scrollTop: int)
      requires Valid()
      modifies this`buttons
      ensures Valid()
      ensures |buttons| == |old(buttons)|
      ensures forall j :: 0 <= j < |buttons| && !(dragged.Some? && old(buttons)[j].id == dragged.value) ==>
        buttons[j] == old(buttons)[j]
      ensures forall j :: 0 <= j < |buttons| && dragged.Some? && old(buttons)[j].id == dragged.value ==>
        buttons[j] == old(buttons)[j].(
          left := Pixels.Px(Pixels.DragCoordinate(clientX, boardLeft, scrollLeft, offsetX, isShiftPressed)),
          top := Pixels.Px(Pixels.DragCoordinate(clientY, boardTop, scrollTop, offsetY, isShiftPressed)))
    {
      if dragged.Some? {
        var at := IndexOf(buttons, dragged.value);
        if at.Some? {
          var k := at.value;
          var left := Pixels.DragCoordinate(clientX, boardLeft, scrollLeft, offsetX, isShiftPressed);
          var top := Pixels.DragCoordinate(clientY, boardTop, scrollTop, offsetY, isShiftPressed);
          EditKeeps(buttons, listeners, nextId, k, buttons[k].(left := Pixels.Px(left), top := Pixels.Px(top)));
          buttons := buttons[k := buttons[k].(left := Pixels.Px(left), top := Pixels.Px(top))];
        } else {
          assert forall j :: 0 <= j < |buttons| ==> buttons[j].id in Ids(buttons);
        }
      }
    }

    /** `mouseup`: a drag ends and the session is saved. */
    method MouseUp()
      modifies this`dragged, this`stored
      ensures dragged == None
      ensures stored == if old(dragged).Some? then Some(Snapshot(buttons)) else old(stored)
    {
      if dragged.Some? {
        SaveSession();
        dragged := None;
      }
    }

    /** The document's `keydown` / `keyup` handlers for Shift, which switch free placement on and off. */
    method ShiftKey(key: string, down: bool)
      modifies this`isShiftPressed
      ensures isShiftPressed == if key == "Shift" then down else old(isShiftPressed)
    {
      if key == "Shift" {
        isShiftPressed := down;
      }
    }

    /** The Edit Mode / Save Layout button. */
    method ToggleEditMode()
      modifies this`isEditMode
      ensures isEditMode == !old(isEditMode)
    {
      isEditMode := !isEditMode;
    }

    /** The keyboard shortcuts that play on one key press, by button id, in listener order. */
    function KeyPress(key: string, targetTag: string): (owners: seq<nat>)
      reads this
      requires Valid()
      ensures forall o :: o in owners <==>
        (!isRecording && targetTag != "INPUT" &&
         exists i :: 0 <= i < |buttons| && buttons[i].id == o && buttons[i].keyHandler == Some(key))
    {
      FiredIffBound(buttons, listeners, nextId, key, isRecording, targetTag);
      Fired(listeners, key, isRecording, targetTag)
    }

    // ---- recording ----

    /** `startRecording`: recording starts when the microphone is granted; a refusal changes nothing. */
    method StartRecording(granted: bool)
      modifies this`isRecording
      ensures isRecording == (granted || old(isRecording))
    {
      if granted {
        isRecording := true;
      }
    }

    /** `stopRecording`: stops only a recorder that is running. */
    method StopRecording(active: bool)
      modifies this`isRecording
      ensures isRecording == (!active && old(isRecording))
    {
      if active {
        isRecording := false;
      }
    }

    /** A finished recording becomes a new button with the defaults: no shortcut, named "Sound". */
    method RecordingFinished(audio: string, choice: Choice, area: Area)
      requires Valid() && palette.Valid()
      requires ChoiceFits(choice, |Colors.PaletteKeys|)
      modifies this`buttons, this`listeners, this`nextId, this`stored
      ensures Valid()
      ensures buttons == old(buttons) + [NewButton(old(nextId), audio, "", "Sound", None, "", choice, palette.Values(), area)]
      ensures listeners == old(listeners)
      ensures stored == Some(Snapshot(buttons))
    {
      CreateButton(audio, "", "Sound", None, "", choice, area);
    }

    // ---- the context menu ----

    /** Rename: a non-empty answer replaces the name and the session is saved. */
    method Rename(i: nat, answer: Option<string>)
      requires Valid() && i < |buttons|
      modifies this`buttons, this`stored
      ensures Valid()
      ensures buttons == old(buttons)[i := old(buttons)[i].(name := Editing.Renamed(old(buttons)[i].name, answer))]
      ensures stored == if answer.Some? && answer.value != "" then Some(Snapshot(buttons)) else old(stored)
    {
      if answer.Some? && answer.value != "" {
        EditKeeps(buttons, listeners, nextId, i, buttons[i].(name := answer.value));
        buttons := buttons[i := buttons[i].(name := answer.value)];
        SaveSession();
      } else {
        assert buttons == buttons[i := buttons[i].(name := Editing.Renamed(buttons[i].name, answer))];
      }
    }

    /** Record Again: the recording's audio replaces the button's, and the session is saved. */
    method ReplaceAudio(i: nat, audio: string)
      requires Valid() && i < |buttons|
      modifies this`buttons, this`stored
      ensures Valid()
      ensures buttons == old(buttons)[i := old(buttons)[i].(audio := audio)]
      ensures stored == Some(Snapshot(buttons))
    {
      EditKeeps(buttons, listeners, nextId, i, buttons[i].(audio := audio));
      buttons := buttons[i := buttons[i].(audio := audio)];
      SaveSession();
    }

    /**
     * Set Shortcut, for one key press in the dialog: Escape and the system
     * keys leave everything as it was; any other key replaces the button's
     * handler and shown shortcut, and the session is saved.
     */
    method CaptureKey(i: nat, key: string) returns (outcome: CaptureOutcome)
      requires Valid() && i < |buttons|
      modifies this`buttons, this`listeners, this`stored
      ensures Valid()
      ensures outcome == CaptureStep(key)
      ensures !outcome.Bind? ==> buttons == old(buttons) && listeners == old(listeners) && stored == old(stored)
      ensures outcome.Bind? ==>
        && buttons == old(buttons)[i := old(buttons)[i].(shortcut := key, keyHandler := Some(key))]
        && listeners == WithoutOwners(old(listeners), {old(buttons)[i].id}) + [Listener(old(buttons)[i].id, key)]
        && stored == Some(Snapshot(buttons))
    {
      outcome := CaptureStep(key);
      if outcome.Bind? {
        SetShortcut(i, key);
        SaveSession();
      }
    }

    /** The old shortcut's handler is removed, a handler for `key` added, and the button shows `key`. */
    method SetShortcut(i: nat, key: string)
      requires Valid() && i < |buttons|
      modifies this`buttons, this`listeners
      ensures Valid()
      ensures buttons == old(buttons)[i := old(buttons)[i].(shortcut := key, keyHandler := Some(key))]
      ensures listeners == WithoutOwners(old(listeners), {old(buttons)[i].id}) + [Listener(old(buttons)[i].id, key)]
    {
      ghost var bs0, ls0 := buttons, listeners;
      RebindKeeps(bs0, ls0, nextId, i, key);
      RemoveKeyboardShortcut(i);
      AddKeyboardShortcut(i, key);
      assert buttons == bs0[i := bs0[i].(keyHandler := Some(key))];
      WithoutOwnersIdempotent(ls0, {bs0[i].id});
      buttons := buttons[i := buttons[i].(shortcut := key)];
      assert buttons == bs0[i := bs0[i].(shortcut := key, keyHandler := Some(key))];
    }

    /** Remove Shortcut: the handler goes, the shown shortcut is cleared, and the session is saved. */
    method RemoveShortcut(i: nat)
      requires Valid() && i < |buttons|
      modifies this`buttons, this`listeners, this`stored
      ensures Valid()
      ensures buttons == old(buttons)[i := old(buttons)[i].(shortcut := "", keyHandler := None)]
      ensures listeners == WithoutOwners(old(listeners), {old(buttons)[i].id})
      ensures stored == Some(Snapshot(buttons))
    {
      RemoveKeyboardShortcut(i);
      EditKeeps(buttons, listeners, nextId, i, buttons[i].(shortcut := ""));
      buttons := buttons[i := buttons[i].(shortcut := "")];
      SaveSession();
    }

    /** Change Color: the picked colour becomes the button's, and the session is saved. */
    method ChangeColor(i: nat, pick: ColorPick)
      requires Valid() && i < |buttons|
      modifies this`buttons, this`stored
      ensures Valid()
      ensures buttons == old(buttons)[i := old(buttons)[i].(color := PickedColor(pick))]
      ensures stored == Some(Snapshot(buttons))
    {
      EditKeeps(buttons, listeners, nextId, i, buttons[i].(color := PickedColor(pick)));
      buttons := buttons[i := buttons[i].(color := PickedColor(pick))];
      SaveSession();
    }

    /** Delete, when confirmed: the button's handler is removed, then the button, and the session is saved. */
    method Delete(i: nat, confirmed: bool)
      requires Valid() && i < |buttons|
      modifies this`buttons, this`listeners, this`stored
      ensures Valid()
      ensures confirmed ==>
        && buttons == old(buttons[..i] + buttons[i + 1..])
        && listeners == WithoutOwners(old(listeners), {old(buttons[i].id)})
        && stored == Some(Snapshot(buttons))
      ensures !confirmed ==> buttons == old(buttons) && listeners == old(listeners) && stored == old(stored)
    {
      if confirmed {
        ghost var before := buttons;
        DeleteKeeps(buttons, listeners, nextId, i);
        RemoveKeyboardShortcut(i);
        buttons := buttons[..i] + buttons[i + 1..];
        assert buttons == before[..i] + before[i + 1..];
        SaveSession();
      }
    }

    // ---- upload ----

    /**
     * The upload input: an audio file of at most MAX_UPLOAD_SIZE bytes becomes
     * a button named after the file, without its extension; anything else is
     * refused and changes nothing.
     */
    method Upload(file: Option<AudioFile>, audio: string, choice: Choice, area: Area) returns (accepted: bool)
      requires Valid() && palette.Valid()
      requires ChoiceFits(choice, |Colors.PaletteKeys|)
      modifies this`buttons, this`listeners, this`nextId, this`stored
      ensures Valid()
      ensures accepted == (file.Some? && Editing.UploadAccepted(file.value.mimeType, file.value.size))
      ensures !accepted ==>
        buttons == old(buttons) && listeners == old(listeners) && nextId == old(nextId) && stored == old(stored)
      ensures accepted ==>
        && buttons == old(buttons) + [NewButton(old(nextId), audio, "", Editing.UploadName(file.value.name), None, "",
                                                choice, palette.Values(), area)]
        && listeners == old(listeners)
        && stored == Some(Snapshot(buttons))
    {
      accepted := file.Some? && Editing.UploadAccepted(file.value.mimeType, file.value.size);
      if accepted {
        CreateButton(audio, "", Editing.UploadName(file.value.name), None, "", choice, area);
        SaveSession();
      }
    }
  }

  /**
   * A button bound to "a" and then cleared the way the reset button and
   * `loadSession` clear the board: the board is empty, yet pressing "a"
   * still plays the removed button's sound.
   */
  method StaleShortcutWitness() returns (board: Board)
    ensures board.buttons == []
    ensures Fired(board.listeners, "a", false, "BODY") == [0]
  {
    var palette := new Colors.Palette(None);
    board := new Board(palette, None);
    board.CreateButton("data:audio/wav;base64,", "a", "Sound", None, "", Choice(0, 0, 0), Area(800, 600));
    board.ClearButtonsAsWritten();
    assert board.listeners == [Listener(0, "a")];
  }

  /** The same board cleared with the handlers released: nothing plays any more. */
  method ClearedShortcutWitness() returns (board: Board)
    ensures board.buttons == []
    ensures Fired(board.listeners, "a", false, "BODY") == []
  {
    var palette := new Colors.Palette(None);
    board := new Board(palette, None);
    board.CreateButton("data:audio/wav;base64,", "a", "Sound", None, "", Choice(0, 0, 0), Area(800, 600));
    board.ClearButtons();
  }
}
