/** The editor's undo/redo history (editor/undo_manager). */
module Undo {

  /**
   * A stored editor action. Actions are owned through unique pointers, so
   * the manager compares them by address; the name is what menus display.
   */
  datatype Action = Action(address: nat, name: string)

  /** Two stacks and the count of unsaved steps, as a value. */
  datatype History = History(undoStack: seq<Action>, redoStack: seq<Action>, indexPos: int)

  /** The first element becomes the last. */
  function Reversed<T>(s: seq<T>): (r: seq<T>)
    ensures |r| == |s|
  {
    if s == [] then [] else Reversed(s[1..]) + [s[0]]
  }

  lemma {:induction false} ReversedAt<T>(s: seq<T>, k: nat)
    requires k < |s|
    ensures Reversed(s)[k] == s[|s| - 1 - k]
  {
    if k < |s| - 1 {
      ReversedAt(s[1..], k);
    }
  }

  lemma {:induction false} ReversedAppend<T>(s: seq<T>, t: seq<T>)
    ensures Reversed(s + t) == Reversed(t) + Reversed(s)
  {
    if s == [] {
      assert s + t == t;
    } else {
      assert (s + t)[1..] == s[1..] + t;
      ReversedAppend(s[1..], t);
    }
  }

  lemma {:induction false} ReversedTwice<T>(s: seq<T>)
    ensures Reversed(Reversed(s)) == s
  {
    if s != [] {
      ReversedTwice(s[1..]);
      ReversedAppend(Reversed(s[1..]), [s[0]]);
      assert Reversed([s[0]]) == [s[0]];
      assert s == [s[0]] + s[1..];
    }
  }

  /** A C++ int. */
  newtype int32 = x: int | -0x8000_0000 <= x < 0x8000_0000

  /** The maximum is an int compared with a size_t: a negative maximum converts to a huge one. */
  predicate ExceedsMaximum(size: nat, maxSnapshots: int32) {
    size > (if maxSnapshots < 0 then maxSnapshots as int + 0x1_0000_0000_0000_0000 else maxSnapshots as int)
  }

  /** The stack after cleanup: the newest entries that fit under the maximum. */
  function Trimmed(s: seq<Action>, maxSnapshots: int32): (r: seq<Action>)
    requires |s| < 0x8000_0000_0000_0000
    ensures maxSnapshots >= 0 ==> |r| == if |s| > maxSnapshots as int then maxSnapshots as int else |s|
    ensures maxSnapshots < 0 ==> r == s
    ensures r == s[|s| - |r|..]
  {
    if maxSnapshots >= 0 && |s| > maxSnapshots as int then s[|s| - maxSnapshots as int..] else s
  }

  /** Moves the top k actions of src onto dst, the topmost first. */
  function Transfer(src: seq<Action>, dst: seq<Action>, k: nat): (r: (seq<Action>, seq<Action>))
    requires k <= |src|
    ensures r.0 == src[..|src| - k]
    ensures |r.1| == |dst| + k && r.1[..|dst|] == dst
    ensures r.1[|dst|..] == Reversed(src[|src| - k..])
    ensures forall j :: |dst| <= j < |dst| + k ==> r.1[j] == src[|src| - 1 - (j - |dst|)]
  {
    var moved := Reversed(src[|src| - k..]);
    assert forall j :: 0 <= j < k ==> moved[j] == src[|src| - 1 - j] by {
      forall j | 0 <= j < k ensures moved[j] == src[|src| - 1 - j] {
        ReversedAt(src[|src| - k..], j);
      }
    }
    (src[..|src| - k], dst + moved)
  }

  /** Steps completed before the action at step throwsAt (1-based) throws; 0 means none throws. */
  function Completed(steps: nat, throwsAt: nat): nat {
    if 1 <= throwsAt <= steps then throwsAt - 1 else steps
  }

  /** UndoManager::undo on the history value. */
  function UndoSteps(h: History, steps: int, throwsAt: nat): (r: History)
    ensures |r.undoStack| + |r.redoStack| == |h.undoStack| + |h.redoStack|
    ensures h.undoStack == [] || steps < 1 || steps > |h.undoStack| ==> r == h
  {
    if h.undoStack == [] || steps > |h.undoStack| || steps < 1 then h
    else
      var k := Completed(steps, throwsAt);
      var t := Transfer(h.undoStack, h.redoStack, k);
      History(t.0, t.1, h.indexPos - k)
  }

  /** UndoManager::redo on the history value. */
  function RedoSteps(h: History, steps: int, throwsAt: nat): (r: History)
    ensures |r.undoStack| + |r.redoStack| == |h.undoStack| + |h.redoStack|
    ensures h.redoStack == [] || steps < 1 || steps > |h.redoStack| ==> r == h
  {
    if h.redoStack == [] || steps > |h.redoStack| || steps < 1 then h
    else
      var k := Completed(steps, throwsAt);
      var t := Transfer(h.redoStack, h.undoStack, k);
      History(t.1, t.0, h.indexPos + k)
  }

  /** A successful undo(k) moves the top k actions to the redo stack, newest first, and lowers the index by k. */
  lemma UndoMovesTopK(h: History, k: int)
    requires 1 <= k <= |h.undoStack|
    ensures var r := UndoSteps(h, k, 0);
      r.undoStack == h.undoStack[..|h.undoStack| - k] &&
      r.redoStack[..|h.redoStack|] == h.redoStack &&
      r.redoStack[|h.redoStack|..] == Reversed(h.undoStack[|h.undoStack| - k..]) &&
      r.indexPos == h.indexPos - k
  {
  }

  /** With no action throwing, redo(k) after undo(k) restores both stacks and the index. */
  lemma UndoThenRedoRestores(h: History, k: int)
    requires 1 <= k <= |h.undoStack|
    ensures RedoSteps(UndoSteps(h, k, 0), k, 0) == h
  {
    var n := |h.undoStack|;
    var m := |h.redoStack|;
    var top := h.undoStack[n - k..];
    var u := UndoSteps(h, k, 0);
    assert u.redoStack == h.redoStack + Reversed(top);
    var r := RedoSteps(u, k, 0);
    assert r.redoStack == u.redoStack[..|u.redoStack| - k];
    assert u.redoStack[|u.redoStack| - k..] == Reversed(top);
    ReversedTwice(top);
    assert r.undoStack == h.undoStack[..n - k] + top;
    assert h.undoStack == h.undoStack[..n - k] + top;
  }

  /** When step j throws, the j - 1 earlier steps stay applied and the failing action stays on top. */
  lemma UndoStopsAtThrow(h: History, steps: int, j: nat)
    requires 1 <= steps <= |h.undoStack| && 1 <= j <= steps
    ensures var r := UndoSteps(h, steps, j);
      |r.undoStack| == |h.undoStack| - (j - 1) &&
      r.undoStack[|r.undoStack| - 1] == h.undoStack[|h.undoStack| - j] &&
      r.indexPos == h.indexPos - (j - 1)
  {
  }

  /** The undo/redo history of the editor. */
  class UndoManager {
    var indexPos: int
    var undoStack: seq<Action>
    var redoStack: seq<Action>

    function State(): History
      reads this
    {
      History(undoStack, redoStack, indexPos)
    }

    constructor ()
      ensures State() == History([], [], 0)
      ensures !HasUnsavedChanges()
    {
      indexPos := 0;
      undoStack := [];
      redoStack := [];
    }

    /** Stores a new action unless it is the very object already on top of the undo stack. */
    method PushAction(action: Action, maxSnapshots: int32)
      requires |undoStack| < 0x7FFF_FFFF_FFFF_FFFF
      modifies this
      ensures old(undoStack) != [] && action.address == old(undoStack)[|old(undoStack)| - 1].address ==>
        State() == old(State())
      ensures old(undoStack) == [] || action.address != old(undoStack)[|old(undoStack)| - 1].address ==>
        State() == History(Trimmed(old(undoStack) + [action], maxSnapshots), [], old(indexPos) + 1)
      ensures old(indexPos) >= 0 && (old(undoStack) == [] || action.address != old(undoStack)[|old(undoStack)| - 1].address) ==>
        HasUnsavedChanges()
    {
      if undoStack == [] {
        PushUndoStack(action, maxSnapshots);
      } else if action.address == undoStack[|undoStack| - 1].address {
        // nothing has changed
      } else {
        PushUndoStack(action, maxSnapshots);
      }
    }

    method PushUndoStack(action: Action, maxSnapshots: int32)
      requires |undoStack| < 0x7FFF_FFFF_FFFF_FFFF
      modifies this
      ensures State() == History(Trimmed(old(undoStack) + [action], maxSnapshots), [], old(indexPos) + 1)
    {
      redoStack := [];
      undoStack := undoStack + [action];
      indexPos := indexPos + 1;
      Cleanup(maxSnapshots);
    }

    /** Drops the oldest actions while the stack is larger than the maximum. */
    method Cleanup(maxSnapshots: int32)
      requires |undoStack| < 0x8000_0000_0000_0000
      modifies this
      ensures undoStack == Trimmed(old(undoStack), maxSnapshots)
      ensures redoStack == old(redoStack) && indexPos == old(indexPos)
    {
      ghost var s0 := undoStack;
      ghost var target := Trimmed(s0, maxSnapshots);
      while ExceedsMaximum(|undoStack|, maxSnapshots)
        invariant |target| <= |undoStack| <= |s0|
        invariant undoStack == s0[|s0| - |undoStack|..]
        invariant redoStack == old(redoStack) && indexPos == old(indexPos)
        decreases |undoStack|
      {
        assert maxSnapshots >= 0 && |undoStack| > maxSnapshots as int;
        undoStack := undoStack[1..];
      }
    }

    /** Forgets the whole history. */
    method ResetIndex()
      modifies this
      ensures State() == History([], [], 0)
      ensures !HasUnsavedChanges()
    {
      indexPos := 0;
      undoStack := [];
      redoStack := [];
    }

    /**
     * Undoes steps actions, newest first. throwsAt names the step whose action
     * throws (0 or a step past the end: none does); the loop stops there.
     */
    method Undo(steps: int, throwsAt: nat)
      modifies this
      ensures State() == UndoSteps(old(State()), steps, throwsAt)
    {
      if undoStack == [] { return; }
      if steps > |undoStack| || steps < 1 {
        return;
      }
      ghost var h := State();
      TransferNothing(h.undoStack, h.redoStack);
      var i := 1;
      while i <= steps
        invariant 1 <= i <= steps + 1
        invariant i - 1 <= Completed(steps, throwsAt)
        invariant (undoStack, redoStack) == Transfer(h.undoStack, h.redoStack, i - 1)
        invariant indexPos == h.indexPos - (i - 1)
      {
        if i == throwsAt {
          return;
        }
        redoStack := redoStack + [undoStack[|undoStack| - 1]];
        undoStack := undoStack[..|undoStack| - 1];
        indexPos := indexPos - 1;
        i := i + 1;
        TransferStep(h.undoStack, h.redoStack, i - 1);
      }
    }

    /** The mirror image of Undo. */
    method Redo(steps: int, throwsAt: nat)
      modifies this
      ensures State() == RedoSteps(old(State()), steps, throwsAt)
    {
      if redoStack == [] { return; }
      if steps > |redoStack| || steps < 1 {
        return;
      }
      ghost var h := State();
      TransferNothing(h.redoStack, h.undoStack);
      var i := 1;
      while i <= steps
        invariant 1 <= i <= steps + 1
        invariant i - 1 <= Completed(steps, throwsAt)
        invariant (redoStack, undoStack) == Transfer(h.redoStack, h.undoStack, i - 1)
        invariant indexPos == h.indexPos + (i - 1)
      {
        if i == throwsAt {
          return;
        }
        undoStack := undoStack + [redoStack[|redoStack| - 1]];
        redoStack := redoStack[..|redoStack| - 1];
        indexPos := indexPos + 1;
        i := i + 1;
        TransferStep(h.redoStack, h.undoStack, i - 1);
      }
    }

    /** Unsaved changes exist exactly when the index is positive. */
    function HasUnsavedChanges(): (r: bool)
      reads this
      ensures r <==> indexPos > 0
    {
      indexPos > 0
    }
  }

  /** Moving k + 1 actions is moving k and then the next one from the top. */
  lemma TransferStep(src: seq<Action>, dst: seq<Action>, k: nat)
    requires 1 <= k <= |src|
    ensures var t := Transfer(src, dst, k - 1);
      Transfer(src, dst, k) == (t.0[..|t.0| - 1], t.1 + [t.0[|t.0| - 1]])
  {
    var n := |src|;
    var t := Transfer(src, dst, k - 1);
    assert src[n - k..][1..] == src[n - k + 1..];
    assert Reversed(src[n - k..]) == Reversed(src[n - k + 1..]) + [src[n - k]];
    assert t.0 == src[..n - k + 1];
    assert t.0[..|t.0| - 1] == src[..n - k];
    assert t.0[|t.0| - 1] == src[n - k];
    assert t.1 == dst + Reversed(src[n - k + 1..]);
    assert Transfer(src, dst, k).1 == dst + Reversed(src[n - k..]);
    assert dst + (Reversed(src[n - k + 1..]) + [src[n - k]]) == (dst + Reversed(src[n - k + 1..])) + [src[n - k]];
  }

  lemma TransferNothing(src: seq<Action>, dst: seq<Action>)
    ensures Transfer(src, dst, 0) == (src, dst)
  {
    assert src[..|src|] == src;
    assert src[|src|..] == [];
    assert Reversed<Action>([]) == [];
    assert dst + [] == dst;
  }

  /**
   * From a saved history (index 0) a stored push leaves one unsaved step,
   * undoing it returns to the saved index, and redoing it makes it unsaved again.
   */
  lemma PushUndoRedoUnsaved(h: History, action: Action, maxSnapshots: int32)
    requires h.indexPos == 0 && |h.undoStack| < 0x7FFF_FFFF_FFFF_FFFF
    requires maxSnapshots >= 1
    ensures var p := History(Trimmed(h.undoStack + [action], maxSnapshots), [], h.indexPos + 1);
      p.indexPos > 0 && UndoSteps(p, 1, 0).indexPos == 0 && RedoSteps(UndoSteps(p, 1, 0), 1, 0).indexPos > 0
  {
    var p := History(Trimmed(h.undoStack + [action], maxSnapshots), [], h.indexPos + 1);
    assert |p.undoStack| >= 1;
    UndoThenRedoRestores(p, 1);
  }

  /** With unique ownership a new action never equals the stored one, so every push is stored. */
  lemma FreshActionIsAlwaysStored(h: History, action: Action, maxSnapshots: int32)
    requires |h.undoStack| < 0x7FFF_FFFF_FFFF_FFFF
    requires forall a :: a in h.undoStack ==> a.address != action.address
    requires maxSnapshots >= 1
    ensures var s := Trimmed(h.undoStack + [action], maxSnapshots);
      |s| > 0 && s[|s| - 1] == action
  {
  }
}
