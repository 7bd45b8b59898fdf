/**
 * Keyboard shortcuts. Every handler that `addKeyboardShortcut` installs is
 * a `keydown` listener on the document that plays its button's sound; the
 * document keeps its listeners in the order they were added. Here a
 * listener is the id of the button it was made for and the key it waits
 * for. Nothing stops two buttons from waiting for the same key: both play.
 */
module Shortcuts {

  datatype Listener = Listener(owner: nat, key: string)

  /** Keys that the "Press any key for shortcut..." dialog passes over. */
  const SystemKeys: seq<string> := ["Tab", "CapsLock", "Shift", "Control", "Alt", "Meta"]

  /** What the shortcut dialog does with one key press. */
  datatype CaptureOutcome =
    | Cancelled      // Escape: the dialog closes and the binding stays as it was
    | Ignored        // a system key: the dialog stays open and nothing changes
    | Bind(key: string)

  function CaptureStep(key: string): (o: CaptureOutcome)
    ensures o == Cancelled <==> key == "Escape"
    ensures o == Ignored <==> key != "Escape" && key in SystemKeys
    ensures o.Bind? ==> o.key == key
  {
    if key == "Escape" then Cancelled
    else if key in SystemKeys then Ignored
    else Bind(key)
  }

  /** The condition inside a shortcut handler: the right key, no recording under way, focus not in a text input. */
  predicate Plays(bound: string, eventKey: string, recording: bool, targetTag: string)
    ensures Plays(bound, eventKey, recording, targetTag) ==> eventKey == bound
    ensures recording || targetTag == "INPUT" ==> !Plays(bound, eventKey, recording, targetTag)
    ensures eventKey == bound && !recording && targetTag != "INPUT" ==> Plays(bound, eventKey, recording, targetTag)
  {
    eventKey == bound && !recording && targetTag != "INPUT"
  }

  /** The owners of the listeners that play on one key press, in the order the listeners run. */
  function Fired(ls: seq<Listener>, eventKey: string, recording: bool, targetTag: string): (owners: seq<nat>)
    ensures forall o :: o in owners <==> (exists l :: l in ls && l.owner == o && Plays(l.key, eventKey, recording, targetTag))
    ensures |owners| <= |ls|
  {
    if ls == [] then []
    else
      var rest := Fired(ls[1..], eventKey, recording, targetTag);
      assert forall l :: l in ls <==> l == ls[0] || l in ls[1..];
      if Plays(ls[0].key, eventKey, recording, targetTag) then [ls[0].owner] + rest else rest
  }

  /** The listeners that do not belong to any of the buttons in `gone` (`removeEventListener` for each). */
  function WithoutOwners(ls: seq<Listener>, gone: set<nat>): (r: seq<Listener>)
    ensures forall l :: l in r <==> l in ls && l.owner !in gone
    ensures |r| <= |ls|
  {
    if ls == [] then []
    else
      assert forall l :: l in ls <==> l == ls[0] || l in ls[1..];
      (if ls[0].owner in gone then [] else [ls[0]]) + WithoutOwners(ls[1..], gone)
  }

  /** Listeners run in registration order: those of `a`, then those of `b`. */
  lemma {:induction false} FiredAppend(a: seq<Listener>, b: seq<Listener>, eventKey: string, recording: bool, targetTag: string)
    ensures Fired(a + b, eventKey, recording, targetTag) == Fired(a, eventKey, recording, targetTag) + Fired(b, eventKey, recording, targetTag)
  {
    if a != [] {
      assert (a + b)[0] == a[0] && (a + b)[1..] == a[1..] + b;
      FiredAppend(a[1..], b, eventKey, recording, targetTag);
    } else {
      assert a + b == b;
    }
  }

  /** One listener plays its owner once when its key matches, and nothing otherwise. */
  lemma FiredOne(l: Listener, eventKey: string, recording: bool, targetTag: string)
    ensures Fired([l], eventKey, recording, targetTag) == if Plays(l.key, eventKey, recording, targetTag) then [l.owner] else []
  {
    assert [l][1..] == [];
  }

  /** Removal keeps the order of the listeners that stay. */
  lemma {:induction false} WithoutOwnersAppend(a: seq<Listener>, b: seq<Listener>, gone: set<nat>)
    ensures WithoutOwners(a + b, gone) == WithoutOwners(a, gone) + WithoutOwners(b, gone)
  {
    if a != [] {
      assert (a + b)[0] == a[0] && (a + b)[1..] == a[1..] + b;
      WithoutOwnersAppend(a[1..], b, gone);
    } else {
      assert a + b == b;
    }
  }

  /** Each button has at most one listener registered. */
  predicate OwnersDistinct(ls: seq<Listener>) {
    forall i, j :: 0 <= i < j < |ls| ==> ls[i].owner != ls[j].owner
  }

  lemma {:induction false} WithoutOwnersKeepsOthers(ls: seq<Listener>, gone: set<nat>)
    requires forall l :: l in ls ==> l.owner !in gone
    ensures WithoutOwners(ls, gone) == ls
  {
    if ls != [] {
      assert ls[0] in ls;
      assert forall l :: l in ls[1..] ==> l in ls;
      WithoutOwnersKeepsOthers(ls[1..], gone);
      assert ls == [ls[0]] + ls[1..];
    }
  }

  /** Removing two groups of listeners one after the other removes their union. */
  lemma {:induction false} WithoutOwnersTwice(ls: seq<Listener>, a: set<nat>, b: set<nat>)
    ensures WithoutOwners(WithoutOwners(ls, a), b) == WithoutOwners(ls, a + b)
  {
    if ls != [] {
      WithoutOwnersTwice(ls[1..], a, b);
      var rest := WithoutOwners(ls[1..], a);
      if ls[0].owner !in a {
        var once := WithoutOwners(ls, a);
        assert once == [ls[0]] + rest;
        assert once[0] == ls[0] && once[1..] == rest;
        assert WithoutOwners(once, b) == (if ls[0].owner in b then [] else [ls[0]]) + WithoutOwners(rest, b);
      } else {
        assert WithoutOwners(ls, a) == [] + rest == rest;
        assert WithoutOwners(ls, a + b) == [] + WithoutOwners(ls[1..], a + b);
      }
    }
  }

  /** `removeKeyboardShortcut` twice in a row leaves the listeners as once does. */
  lemma WithoutOwnersIdempotent(ls: seq<Listener>, gone: set<nat>)
    ensures WithoutOwners(WithoutOwners(ls, gone), gone) == WithoutOwners(ls, gone)
  {
    WithoutOwnersTwice(ls, gone, gone);
    assert gone + gone == gone;
  }

  lemma {:induction false} WithoutOwnersKeepsDistinct(ls: seq<Listener>, gone: set<nat>)
    requires OwnersDistinct(ls)
    ensures OwnersDistinct(WithoutOwners(ls, gone))
  {
    if ls != [] {
      assert OwnersDistinct(ls[1..]);
      WithoutOwnersKeepsDistinct(ls[1..], gone);
      var tail := WithoutOwners(ls[1..], gone);
      assert forall l :: l in tail ==> l.owner != ls[0].owner by {
        forall l | l in tail ensures l.owner != ls[0].owner {
          var j :| 0 <= j < |ls[1..]| && ls[1..][j] == l;
          assert ls[j + 1] == l;
        }
      }
    }
  }

  /** A listener for a button that has none yet keeps the owners distinct. */
  lemma AppendKeepsDistinct(ls: seq<Listener>, l: Listener)
    requires OwnersDistinct(ls)
    requires forall m :: m in ls ==> m.owner != l.owner
    ensures OwnersDistinct(ls + [l])
  {
    forall i, j | 0 <= i < j < |ls + [l]|
      ensures (ls + [l])[i].owner != (ls + [l])[j].owner
    {
      if j == |ls| {
        assert (ls + [l])[i] == ls[i] && ls[i] in ls;
      }
    }
  }
}
