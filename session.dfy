/**
 * Sound buttons and the session they are saved as. A button is what
 * `createButton` builds: its name, audio (an opaque data URI), colour, the
 * shortcut text it shows, its CSS `left` / `top`, and the key of the
 * handler it holds, if any. A session is the `buttons` array that
 * `saveSession` writes: one record per button, in board order.
 */
module Session {
  import opened Wrappers
  import opened Shortcuts
  import Pixels

  datatype Position = Position(left: string, top: string)

  /** One element of a saved session. An absent position or an empty colour means the field was missing. */
  datatype Record = Record(name: string, shortcut: string, position: Option<Position>, audio: string, color: string)

  datatype Button = Button(
    id: nat,
    name: string,
    audio: string,
    color: string,
    shortcut: string,             // the text of the button's `.shortcut` span, "" when it has none
    left: string,
    top: string,
    keyHandler: Option<string>)   // the key its registered `keydown` handler waits for

  /** The record `saveSession` makes of one button. */
  function SnapshotOf(b: Button): (r: Record)
    ensures r.name == b.name && r.shortcut == b.shortcut && r.audio == b.audio && r.color == b.color
    ensures r.position == Some(Position(b.left, b.top))
    ensures PlacedAndColored(r) <==> b.color != ""
  {
    Record(b.name, b.shortcut, Some(Position(b.left, b.top)), b.audio, b.color)
  }

  /** The session `saveSession` makes of the board. */
  function Snapshot(bs: seq<Button>): (rs: seq<Record>)
    ensures |rs| == |bs|
    ensures forall i :: 0 <= i < |bs| ==> rs[i] == SnapshotOf(bs[i])
  {
    seq(|bs|, i requires 0 <= i < |bs| => SnapshotOf(bs[i]))
  }

  // ---- createButton ----

  /** The random draws of one `createButton` call: a palette index, a grid column and a grid row. */
  datatype Choice = Choice(pick: nat, column: nat, row: nat)

  /** The size of the board's bounding rectangle. */
  datatype Area = Area(width: nat, height: nat)

  /** The ranges `Math.floor(Math.random() * n)` draws from. */
  predicate ChoiceFits(c: Choice, paletteSize: nat) {
    c.pick < paletteSize && c.column < Pixels.GRID_SIZE - 2 && c.row < 2
  }

  /** `color || Object.values(BUTTON_COLORS)[pick]` */
  function DefaultColor(color: string, values: seq<string>, pick: nat): (r: string)
    requires pick < |values|
    ensures color != "" ==> r == color
    ensures color == "" ==> r in values
  {
    if color != "" then color else values[pick]
  }

  /** Where a button without a stored position is put: the origin of grid cell (column, row). */
  function InitialPosition(c: Choice, area: Area): Position {
    Position(Pixels.Px(Pixels.CellOrigin(c.column, area.width)), Pixels.Px(Pixels.CellOrigin(c.row, area.height)))
  }

  /** The initial position reads back as column times cell width and row times cell height. */
  lemma InitialPositionOfCell(c: Choice, area: Area)
    ensures Pixels.PxValue(InitialPosition(c, area).left) == Some(c.column * (area.width / Pixels.GRID_SIZE))
    ensures Pixels.PxValue(InitialPosition(c, area).top) == Some(c.row * (area.height / Pixels.GRID_SIZE))
  {
    Pixels.PxRoundTrip(Pixels.CellOrigin(c.column, area.width));
    Pixels.PxRoundTrip(Pixels.CellOrigin(c.row, area.height));
  }

  predicate ChoicesFit(choices: seq<Choice>, paletteSize: nat) {
    forall i :: 0 <= i < |choices| ==> ChoiceFits(choices[i], paletteSize)
  }

  /** A new button holds a handler exactly when its shortcut is non-empty. */
  function HandlerFor(shortcutKey: string): (h: Option<string>)
    ensures h.Some? <==> shortcutKey != ""
    ensures h.Some? ==> h.value == shortcutKey
  {
    if shortcutKey != "" then Some(shortcutKey) else None
  }

  /** The button `createButton(audio, shortcutKey, name, position, color)` puts on the board. */
  function NewButton(id: nat, audio: string, shortcutKey: string, name: string, position: Option<Position>,
                     color: string, c: Choice, values: seq<string>, area: Area): (b: Button)
    requires c.pick < |values|
    ensures b.id == id && b.name == name && b.audio == audio && b.shortcut == shortcutKey
    ensures ShortcutShown(b) && (b.keyHandler.Some? <==> shortcutKey != "")
  {
    var pos := position.GetOr(InitialPosition(c, area));
    Button(id, name, audio, DefaultColor(color, values, c.pick), shortcutKey, pos.left, pos.top, HandlerFor(shortcutKey))
  }

  /**
   * A new button keeps a stored position as it is; without one it lands on
   * the left edge of one of the first six grid columns and the top edge of
   * one of the first two rows, and that grid cell lies on the board (the
   * button's own size is not modelled).
   */
  lemma NewButtonPlacement(id: nat, audio: string, shortcutKey: string, name: string, position: Option<Position>,
                           color: string, c: Choice, values: seq<string>, area: Area)
    requires ChoiceFits(c, |values|)
    ensures var b := NewButton(id, audio, shortcutKey, name, position, color, c, values, area);
      && (position.Some? ==> b.left == position.value.left && b.top == position.value.top)
      && (position.None? ==>
            exists x: nat, y: nat ::
              && Pixels.PxValue(b.left) == Some(x) && Pixels.PxValue(b.top) == Some(y)
              && x + area.width / Pixels.GRID_SIZE <= area.width
              && y + area.height / Pixels.GRID_SIZE <= area.height
              && x == c.column * (area.width / Pixels.GRID_SIZE)
              && y == c.row * (area.height / Pixels.GRID_SIZE))
  {
    if position.None? {
      var x, y := Pixels.CellOrigin(c.column, area.width), Pixels.CellOrigin(c.row, area.height);
      Pixels.PxRoundTrip(x);
      Pixels.PxRoundTrip(y);
      Pixels.InitialCellOnBoard(c.column, area.width);
      Pixels.InitialCellOnBoard(c.row, area.height);
    }
  }

  // ---- loadSession ----

  /** A record `loadSession` can recreate exactly: it has a position and a non-empty colour. */
  predicate PlacedAndColored(r: Record) {
    r.position.Some? && r.color != ""
  }

  /** The button `loadSession` creates from one record. */
  function Restored(r: Record, c: Choice, values: seq<string>, area: Area, id: nat): Button
    requires c.pick < |values|
  {
    NewButton(id, r.audio, r.shortcut, r.name, r.position, r.color, c, values, area)
  }

  /** The buttons `loadSession` creates from `records`, numbered from `firstId`. */
  function Restore(records: seq<Record>, choices: seq<Choice>, values: seq<string>, area: Area, firstId: nat): (bs: seq<Button>)
    requires |choices| == |records|
    requires ChoicesFit(choices, |values|)
    ensures |bs| == |records|
    ensures forall i :: 0 <= i < |bs| ==> bs[i] == Restored(records[i], choices[i], values, area, firstId + i)
    decreases |records|
  {
    if records == [] then []
    else
      var n := |records| - 1;
      assert ChoicesFit(choices[..n], |values|);
      Restore(records[..n], choices[..n], values, area, firstId) + [Restored(records[n], choices[n], values, area, firstId + n)]
  }

  /** A row of buttons that agrees with Restore index by index is Restore. */
  lemma RestorePointwise(records: seq<Record>, choices: seq<Choice>, values: seq<string>, area: Area, firstId: nat, bs: seq<Button>)
    requires |choices| == |records| && ChoicesFit(choices, |values|)
    requires |bs| == |records|
    requires forall j :: 0 <= j < |bs| ==> bs[j] == Restored(records[j], choices[j], values, area, firstId + j)
    ensures bs == Restore(records, choices, values, area, firstId)
  {
  }

  /**
   * What a reload keeps of each record: name, shortcut and audio always, the
   * position when there is one, the colour when it is non-empty (otherwise
   * a palette colour is drawn).
   */
  lemma RestoreSnapshot(records: seq<Record>, choices: seq<Choice>, values: seq<string>, area: Area, firstId: nat)
    requires |choices| == |records|
    requires ChoicesFit(choices, |values|)
    ensures var rs := Snapshot(Restore(records, choices, values, area, firstId));
      && |rs| == |records|
      && forall i :: 0 <= i < |rs| ==>
           && rs[i].name == records[i].name
           && rs[i].shortcut == records[i].shortcut
           && rs[i].audio == records[i].audio
           && rs[i].position.Some?
           && (records[i].position.Some? ==> rs[i].position == records[i].position)
           && (records[i].color != "" ==> rs[i].color == records[i].color)
           && (records[i].color == "" ==> rs[i].color in values)
  {
  }

  /** Saving right after loading gives back the loaded session, when every record has a position and a colour. */
  lemma RestoreRoundTrip(records: seq<Record>, choices: seq<Choice>, values: seq<string>, area: Area, firstId: nat)
    requires |choices| == |records|
    requires ChoicesFit(choices, |values|)
    requires forall i :: 0 <= i < |records| ==> PlacedAndColored(records[i])
    ensures Snapshot(Restore(records, choices, values, area, firstId)) == records
  {
    var rs := Snapshot(Restore(records, choices, values, area, firstId));
    RestoreSnapshot(records, choices, values, area, firstId);
    forall i | 0 <= i < |rs| ensures rs[i] == records[i] {
      assert records[i].position == Some(records[i].position.value);
    }
  }

  /** A saved board whose buttons all have a colour comes back from a reload with the same session. */
  lemma ReloadKeepsSession(bs: seq<Button>, choices: seq<Choice>, values: seq<string>, area: Area, firstId: nat)
    requires |choices| == |bs|
    requires ChoicesFit(choices, |values|)
    requires forall i :: 0 <= i < |bs| ==> bs[i].color != ""
    ensures Snapshot(Restore(Snapshot(bs), choices, values, area, firstId)) == Snapshot(bs)
  {
    RestoreRoundTrip(Snapshot(bs), choices, values, area, firstId);
  }

  // ---- the board's bookkeeping of ids and handlers ----

  function Ids(bs: seq<Button>): set<nat> {
    set i | 0 <= i < |bs| :: bs[i].id
  }

  predicate IdsDistinct(bs: seq<Button>) {
    forall i, j :: 0 <= i < j < |bs| ==> bs[i].id != bs[j].id
  }

  /** A button's handler, if any, is registered, and every listener made for it waits for that handler's key. */
  predicate HandlerBound(b: Button, ls: seq<Listener>) {
    && (forall l :: l in ls && l.owner == b.id ==> b.keyHandler == Some(l.key))
    && (b.keyHandler.Some? ==> Listener(b.id, b.keyHandler.value) in ls)
  }

  predicate HandlersBound(bs: seq<Button>, ls: seq<Listener>) {
    forall i :: 0 <= i < |bs| ==> HandlerBound(bs[i], ls)
  }

  /** Ids are unique and below the next fresh id, and each button holds at most one registered handler. */
  predicate Registered(bs: seq<Button>, ls: seq<Listener>, nextId: nat) {
    && IdsDistinct(bs)
    && (forall i :: 0 <= i < |bs| ==> bs[i].id < nextId)
    && (forall l :: l in ls ==> l.owner < nextId)
    && OwnersDistinct(ls)
    && HandlersBound(bs, ls)
  }

  /** Every registered listener belongs to a button on the board. */
  predicate OwnersOnBoard(bs: seq<Button>, ls: seq<Listener>) {
    forall l :: l in ls ==> l.owner in Ids(bs)
  }

  /** The shortcut a button shows is the key of the handler it holds. */
  predicate ShortcutShown(b: Button) {
    && (b.shortcut != "" ==> b.keyHandler == Some(b.shortcut))
    && (b.keyHandler.Some? ==> b.keyHandler.value == b.shortcut)
  }

  predicate ShortcutsShown(bs: seq<Button>) {
    forall i :: 0 <= i < |bs| ==> ShortcutShown(bs[i])
  }

  /** The listener a button's handler is, as a list of zero or one. */
  function HandlerListeners(b: Button): seq<Listener> {
    if b.keyHandler.Some? then [Listener(b.id, b.keyHandler.value)] else []
  }

  /** The listeners of a row of buttons whose handlers were added in board order. */
  function ListenersOf(bs: seq<Button>): seq<Listener> {
    if bs == [] then [] else ListenersOf(bs[..|bs| - 1]) + HandlerListeners(bs[|bs| - 1])
  }

  lemma ListenersOfAppend(bs: seq<Button>, b: Button)
    ensures ListenersOf(bs + [b]) == ListenersOf(bs) + HandlerListeners(b)
  {
    assert (bs + [b])[..|bs|] == bs;
  }

  /** The index of the button with a given id. */
  function IndexOf(bs: seq<Button>, id: nat): (r: Option<nat>)
    ensures r.Some? ==> r.value < |bs| && bs[r.value].id == id
    ensures r.None? ==> id !in Ids(bs)
  {
    if bs == [] then None
    else if bs[|bs| - 1].id == id then Some(|bs| - 1)
    else
      var r := IndexOf(bs[..|bs| - 1], id);
      assert Ids(bs) == Ids(bs[..|bs| - 1]) + {bs[|bs| - 1].id};
      r
  }

  lemma NoListenerWithoutHandler(bs: seq<Button>, ls: seq<Listener>, i: nat)
    requires HandlersBound(bs, ls) && i < |bs|
    requires bs[i].keyHandler.None?
    ensures WithoutOwners(ls, {bs[i].id}) == ls
  {
    assert HandlerBound(bs[i], ls);
    WithoutOwnersKeepsOthers(ls, {bs[i].id});
  }

  // The board operations keep `Registered` and `OwnersOnBoard`: the lemmas below.

  lemma AddButtonKeeps(bs: seq<Button>, ls: seq<Listener>, nextId: nat, b: Button)
    requires Registered(bs, ls, nextId)
    requires b.id == nextId && b.keyHandler.None?
    ensures Registered(bs + [b], ls, nextId + 1)
    ensures OwnersOnBoard(bs, ls) ==> OwnersOnBoard(bs + [b], ls)
  {
    var bs' := bs + [b];
    assert forall i :: 0 <= i < |bs| ==> bs'[i] == bs[i];
    assert HandlerBound(b, ls);
    assert Ids(bs) <= Ids(bs') by {
      forall x | x in Ids(bs) ensures x in Ids(bs') {
        var i :| 0 <= i < |bs| && bs[i].id == x;
        assert bs'[i].id == x;
      }
    }
  }

  /** A new button, with its handler (if any) registered last, keeps the bookkeeping. */
  lemma AppendButtonKeeps(bs: seq<Button>, ls: seq<Listener>, nextId: nat, b: Button)
    requires Registered(bs, ls, nextId) && OwnersOnBoard(bs, ls) && ShortcutsShown(bs)
    requires b.id == nextId && ShortcutShown(b)
    ensures Registered(bs + [b], ls + HandlerListeners(b), nextId + 1)
    ensures OwnersOnBoard(bs + [b], ls + HandlerListeners(b))
    ensures ShortcutsShown(bs + [b])
  {
    var bs', ls' := bs + [b], ls + HandlerListeners(b);
    assert forall i :: 0 <= i < |bs| ==> bs'[i] == bs[i];
    assert bs'[|bs|] == b;
    assert forall l :: l in ls' <==> l in ls || l in HandlerListeners(b);
    assert b.id in Ids(bs');
    forall l | l in ls ensures l.owner in Ids(bs') {
      var i :| 0 <= i < |bs| && bs[i].id == l.owner;
      assert bs'[i].id == l.owner;
    }
    if b.keyHandler.Some? {
      AppendKeepsDistinct(ls, Listener(b.id, b.keyHandler.value));
    } else {
      assert ls' == ls;
    }
    forall i | 0 <= i < |bs'| ensures HandlerBound(bs'[i], ls') {
      if i < |bs| {
        assert HandlerBound(bs[i], ls);
      }
    }
  }

  lemma BindKeeps(bs: seq<Button>, ls: seq<Listener>, nextId: nat, i: nat, key: string)
    requires Registered(bs, ls, nextId) && i < |bs|
    ensures var id := bs[i].id;
      var bs' := bs[i := bs[i].(keyHandler := Some(key))];
      var ls' := WithoutOwners(ls, {id}) + [Listener(id, key)];
      && Registered(bs', ls', nextId)
      && (OwnersOnBoard(bs, ls) ==> OwnersOnBoard(bs', ls'))
  {
    var id := bs[i].id;
    var bs' := bs[i := bs[i].(keyHandler := Some(key))];
    var rest := WithoutOwners(ls, {id});
    var ls' := rest + [Listener(id, key)];
    WithoutOwnersKeepsDistinct(ls, {id});
    AppendKeepsDistinct(rest, Listener(id, key));
    assert Ids(bs') == Ids(bs) by {
      forall x ensures x in Ids(bs') <==> x in Ids(bs) {
        if x in Ids(bs) {
          var j :| 0 <= j < |bs| && bs[j].id == x;
          assert bs'[j].id == x;
        }
        if x in Ids(bs') {
          var j :| 0 <= j < |bs'| && bs'[j].id == x;
          assert bs[j].id == x;
        }
      }
    }
    forall j | 0 <= j < |bs'| ensures HandlerBound(bs'[j], ls') {
      assert HandlerBound(bs[j], ls);
      if j != i {
        assert bs'[j] == bs[j] && bs[j].id != id;
        if bs[j].keyHandler.Some? {
          assert Listener(bs[j].id, bs[j].keyHandler.value) in rest;
        }
      }
    }
  }

  /** Binding a new key to a button and showing it keeps the bookkeeping. */
  lemma RebindKeeps(bs: seq<Button>, ls: seq<Listener>, nextId: nat, i: nat, key: string)
    requires Registered(bs, ls, nextId) && OwnersOnBoard(bs, ls) && ShortcutsShown(bs) && i < |bs|
    ensures var bs' := bs[i := bs[i].(shortcut := key, keyHandler := Some(key))];
      var ls' := WithoutOwners(ls, {bs[i].id}) + [Listener(bs[i].id, key)];
      Registered(bs', ls', nextId) && OwnersOnBoard(bs', ls') && ShortcutsShown(bs')
  {
    BindKeeps(bs, ls, nextId, i, key);
    var bound := bs[i := bs[i].(keyHandler := Some(key))];
    var ls' := WithoutOwners(ls, {bs[i].id}) + [Listener(bs[i].id, key)];
    EditKeeps(bound, ls', nextId, i, bound[i].(shortcut := key));
    assert bound[i := bound[i].(shortcut := key)] == bs[i := bs[i].(shortcut := key, keyHandler := Some(key))];
  }

  lemma UnbindKeeps(bs: seq<Button>, ls: seq<Listener>, nextId: nat, i: nat)
    requires Registered(bs, ls, nextId) && i < |bs|
    ensures var id := bs[i].id;
      var bs' := bs[i := bs[i].(keyHandler := None)];
      var ls' := WithoutOwners(ls, {id});
      && Registered(bs', ls', nextId)
      && Ids(bs') == Ids(bs)
      && (OwnersOnBoard(bs, ls) ==> OwnersOnBoard(bs', ls'))
  {
    var id := bs[i].id;
    var bs' := bs[i := bs[i].(keyHandler := None)];
    var ls' := WithoutOwners(ls, {id});
    WithoutOwnersKeepsDistinct(ls, {id});
    assert Ids(bs') == Ids(bs) by {
      forall x ensures x in Ids(bs') <==> x in Ids(bs) {
        if x in Ids(bs) {
          var j :| 0 <= j < |bs| && bs[j].id == x;
          assert bs'[j].id == x;
        }
        if x in Ids(bs') {
          var j :| 0 <= j < |bs'| && bs'[j].id == x;
          assert bs[j].id == x;
        }
      }
    }
    forall j | 0 <= j < |bs'| ensures HandlerBound(bs'[j], ls') {
      assert HandlerBound(bs[j], ls);
      if j != i {
        assert bs'[j] == bs[j] && bs[j].id != id;
        if bs[j].keyHandler.Some? {
          assert Listener(bs[j].id, bs[j].keyHandler.value) in ls';
        }
      }
    }
  }

  /** Editing a button's other fields keeps its id and its handler, hence the bookkeeping. */
  lemma EditKeeps(bs: seq<Button>, ls: seq<Listener>, nextId: nat, i: nat, b: Button)
    requires Registered(bs, ls, nextId) && i < |bs|
    requires b.id == bs[i].id && b.keyHandler == bs[i].keyHandler
    ensures Registered(bs[i := b], ls, nextId)
    ensures Ids(bs[i := b]) == Ids(bs)
    ensures OwnersOnBoard(bs, ls) ==> OwnersOnBoard(bs[i := b], ls)
  {
    var bs' := bs[i := b];
    assert forall j :: 0 <= j < |bs| ==> bs'[j].id == bs[j].id;
    assert Ids(bs') == Ids(bs) by {
      forall x ensures x in Ids(bs') <==> x in Ids(bs) {
        if x in Ids(bs) {
          var j :| 0 <= j < |bs| && bs[j].id == x;
          assert bs'[j].id == x;
        }
        if x in Ids(bs') {
          var j :| 0 <= j < |bs'| && bs'[j].id == x;
          assert bs[j].id == x;
        }
      }
    }
    assert HandlerBound(bs[i], ls);
  }

  /** Taking a button without a handler off the board. */
  lemma RemoveButtonKeeps(bs: seq<Button>, ls: seq<Listener>, nextId: nat, i: nat)
    requires Registered(bs, ls, nextId) && i < |bs|
    requires bs[i].keyHandler.None?
    ensures var bs' := bs[..i] + bs[i + 1..];
      && Registered(bs', ls, nextId)
      && Ids(bs') == Ids(bs) - {bs[i].id}
      && (OwnersOnBoard(bs, ls) ==> OwnersOnBoard(bs', ls))
  {
    var bs' := bs[..i] + bs[i + 1..];
    assert forall j :: 0 <= j < |bs'| ==> bs'[j] == bs[if j < i then j else j + 1];
    IdsWithout(bs, i);
    if OwnersOnBoard(bs, ls) {
      assert HandlerBound(bs[i], ls);
    }
  }

  /** Removing the button at `i` removes exactly its id, since no other button has it. */
  lemma IdsWithout(bs: seq<Button>, i: nat)
    requires IdsDistinct(bs) && i < |bs|
    ensures Ids(bs[..i] + bs[i + 1..]) == Ids(bs) - {bs[i].id}
  {
    var bs' := bs[..i] + bs[i + 1..];
    forall x ensures x in Ids(bs') <==> x in Ids(bs) - {bs[i].id} {
      if x in Ids(bs) - {bs[i].id} {
        var j :| 0 <= j < |bs| && bs[j].id == x;
        assert bs'[if j < i then j else j - 1] == bs[j];
      }
      if x in Ids(bs') {
        var j :| 0 <= j < |bs'| && bs'[j].id == x;
        assert bs'[j] == bs[if j < i then j else j + 1];
      }
    }
  }

  /** Deleting a button, handler first, keeps the bookkeeping. */
  lemma DeleteKeeps(bs: seq<Button>, ls: seq<Listener>, nextId: nat, i: nat)
    requires Registered(bs, ls, nextId) && OwnersOnBoard(bs, ls) && ShortcutsShown(bs) && i < |bs|
    ensures var bs' := bs[..i] + bs[i + 1..];
      var ls' := WithoutOwners(ls, {bs[i].id});
      Registered(bs', ls', nextId) && OwnersOnBoard(bs', ls') && ShortcutsShown(bs')
  {
    UnbindKeeps(bs, ls, nextId, i);
    var unbound := bs[i := bs[i].(keyHandler := None)];
    RemoveButtonKeeps(unbound, WithoutOwners(ls, {bs[i].id}), nextId, i);
    assert unbound[..i] + unbound[i + 1..] == bs[..i] + bs[i + 1..];
    var bs' := bs[..i] + bs[i + 1..];
    assert forall j :: 0 <= j < |bs'| ==> bs'[j] == bs[if j < i then j else j + 1];
  }

  /** With every listener on the board, removing the listeners of all the board's buttons leaves none. */
  lemma ClearedBoardHasNoListeners(bs: seq<Button>, ls: seq<Listener>)
    requires OwnersOnBoard(bs, ls)
    ensures WithoutOwners(ls, Ids(bs)) == []
  {
    var r := WithoutOwners(ls, Ids(bs));
    assert forall l :: l !in r;
  }

  /**
   * A key press plays exactly the board's buttons whose handler waits for
   * that key, unless a recording is under way or a text input has the focus;
   * several buttons may wait for the same key and then all of them play.
   */
  lemma FiredIffBound(bs: seq<Button>, ls: seq<Listener>, nextId: nat, key: string, recording: bool, targetTag: string)
    requires Registered(bs, ls, nextId) && OwnersOnBoard(bs, ls)
    ensures forall o :: o in Fired(ls, key, recording, targetTag) <==>
      (!recording && targetTag != "INPUT" && exists i :: 0 <= i < |bs| && bs[i].id == o && bs[i].keyHandler == Some(key))
  {
    forall o ensures o in Fired(ls, key, recording, targetTag) <==>
      (!recording && targetTag != "INPUT" && exists i :: 0 <= i < |bs| && bs[i].id == o && bs[i].keyHandler == Some(key))
    {
      if o in Fired(ls, key, recording, targetTag) {
        var l :| l in ls && l.owner == o && Plays(l.key, key, recording, targetTag);
        assert o in Ids(bs);
        var i :| 0 <= i < |bs| && bs[i].id == o;
        assert HandlerBound(bs[i], ls);
      }
      if !recording && targetTag != "INPUT" && exists i :: 0 <= i < |bs| && bs[i].id == o && bs[i].keyHandler == Some(key) {
        var i :| 0 <= i < |bs| && bs[i].id == o && bs[i].keyHandler == Some(key);
        assert HandlerBound(bs[i], ls);
        assert Listener(o, key) in ls;
      }
    }
  }
}
