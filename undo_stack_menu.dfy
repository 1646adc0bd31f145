/** The editor menu that lists the undo or the redo stack, ten entries a page. */
module UndoStackMenu {
  import opened Undo

  const ACTIONS_ON_PAGE: int := 10

  datatype StackType = UndoStack | RedoStack

  /** The menu items this menu builds. */
  datatype Item =
    | StackLabel(stackType: StackType, count: int)   // "Undo stack (n)" / "Redo stack (n)"
    | HorizontalLine
    | Entry(id: int, text: string)                  // selectable
    | Inactive(text: string)                        // shown greyed out
    | BackButton

  /** The displayed names: the top of the stack first. */
  function DisplayNames(stack: seq<Action>): (names: seq<string>)
    ensures |names| == |stack|
    ensures forall i :: 0 <= i < |names| ==> names[i] == stack[|stack| - 1 - i].name
  {
    var r := seq(|stack|, i requires 0 <= i < |stack| => stack[|stack| - 1 - i].name);
    r
  }

  /** The entries of one page: ids i + 1 for (page - 1) * 10 <= i < min(page * 10, size). */
  function PageEntries(names: seq<string>, page: int): (items: seq<Item>)
    requires page >= 1
    ensures forall j :: 0 <= j < |items| ==> items[j].Entry? && items[j].id >= 1
  {
    var first := (page - 1) * ACTIONS_ON_PAGE;
    var last := if page * ACTIONS_ON_PAGE < |names| then page * ACTIONS_ON_PAGE else |names|;
    if first >= last then []
    else seq(last - first, j requires 0 <= j < last - first => Entry(first + j + 1, names[first + j]))
  }

  /** The full menu for a stack shown at a page. */
  function Layout(stackType: StackType, stack: seq<Action>, page: int): seq<Item>
    requires page >= 1
  {
    [StackLabel(stackType, |stack|), HorizontalLine]
    + (if stack != [] then PageEntries(DisplayNames(stack), page) else [Inactive("Empty")])
    + Navigation(|stack|, page)
  }

  /** The page buttons and the back button below the entries. */
  function Navigation(size: int, page: int): seq<Item> {
    [HorizontalLine,
     if page > 1 then Entry(-1, "Previous page") else Inactive("Previous page"),
     if size > page * ACTIONS_ON_PAGE then Entry(-2, "Next page") else Inactive("Next page"),
     HorizontalLine, BackButton]
  }

  /** Whether the menu holds a selectable entry with this id. */
  predicate Selectable(items: seq<Item>, id: int) {
    exists i :: 0 <= i < |items| && items[i].Entry? && items[i].id == id
  }

  lemma SelectableConcat(a: seq<Item>, b: seq<Item>, id: int)
    ensures Selectable(a + b, id) <==> Selectable(a, id) || Selectable(b, id)
  {
    if Selectable(a + b, id) {
      var i :| 0 <= i < |a + b| && (a + b)[i].Entry? && (a + b)[i].id == id;
      if i >= |a| {
        assert b[i - |a|] == (a + b)[i];
      }
    }
    if Selectable(b, id) {
      var i :| 0 <= i < |b| && b[i].Entry? && b[i].id == id;
      assert (a + b)[|a| + i] == b[i];
    }
    if Selectable(a, id) {
      var i :| 0 <= i < |a| && a[i].Entry? && a[i].id == id;
      assert (a + b)[i] == a[i];
    }
  }

  /** Page p lists exactly the ids (p - 1) * 10 + 1 .. min(p * 10, size), each with its stack name. */
  lemma PageListsItsSlice(stack: seq<Action>, page: int, id: int)
    requires page >= 1 && stack != []
    ensures var entries := PageEntries(DisplayNames(stack), page);
      (exists j :: 0 <= j < |entries| && entries[j].id == id) <==>
        ((page - 1) * ACTIONS_ON_PAGE < id <= page * ACTIONS_ON_PAGE && id <= |stack|)
    ensures var entries := PageEntries(DisplayNames(stack), page);
      forall j :: 0 <= j < |entries| ==>
        1 <= entries[j].id <= |stack| && entries[j].text == stack[|stack| - entries[j].id].name
  {
    var entries := PageEntries(DisplayNames(stack), page);
    var first := (page - 1) * ACTIONS_ON_PAGE;
    if (page - 1) * ACTIONS_ON_PAGE < id <= page * ACTIONS_ON_PAGE && id <= |stack| {
      assert entries[id - 1 - first].id == id;
    }
  }

  /** "Previous page" is selectable iff page > 1, "Next page" iff more entries follow. */
  lemma NavigationButtons(stackType: StackType, stack: seq<Action>, page: int)
    requires page >= 1
    ensures Selectable(Layout(stackType, stack, page), -1) <==> page > 1
    ensures Selectable(Layout(stackType, stack, page), -2) <==> |stack| > page * ACTIONS_ON_PAGE
  {
    var head: seq<Item> := [StackLabel(stackType, |stack|), HorizontalLine];
    var body := if stack != [] then PageEntries(DisplayNames(stack), page) else [Inactive("Empty")];
    var nav := Navigation(|stack|, page);
    assert Layout(stackType, stack, page) == (head + body) + nav;
    SelectableConcat(head + body, nav, -1);
    SelectableConcat(head + body, nav, -2);
    SelectableConcat(head, body, -1);
    SelectableConcat(head, body, -2);
    assert page > 1 ==> nav[1].Entry? && nav[1].id == -1;
    assert |stack| > page * ACTIONS_ON_PAGE ==> nav[2].Entry? && nav[2].id == -2;
  }

  /** An empty stack shows only the inactive "Empty" line where entries would be. */
  lemma EmptyStackShowsEmpty(stackType: StackType, page: int)
    requires page >= 1
    ensures Layout(stackType, [], page)[2] == Inactive("Empty")
    ensures forall id :: id > 0 ==> !Selectable(Layout(stackType, [], page), id)
  {
  }

  class EditorUndoStackMenu {
    const stackType: StackType
    var currentPage: int
    var stackSize: int
    var items: seq<Item>
    /** Whether the menu has been popped off the menu stack. */
    var popped: bool

    ghost predicate Valid()
      reads this
    {
      currentPage >= 1
    }

    /** Opens on page 1 and builds the menu. */
    constructor (stackType: StackType, manager: UndoManager?)
      ensures Valid() && this.stackType == stackType && currentPage == 1
      ensures manager != null ==> items == Layout(stackType, StackOf(stackType, manager.State()), 1) && !popped
      ensures manager == null ==> items == [] && popped
    {
      this.stackType := stackType;
      currentPage := 1;
      stackSize := 0;
      items := [];
      popped := false;
      new;
      RebuildMenu(manager);
    }

    /** Lists the stack page; without an undo manager the menu closes itself. */
    method RebuildMenu(manager: UndoManager?)
      requires Valid()
      modifies this
      ensures Valid() && currentPage == old(currentPage)
      ensures manager == null ==> items == [] && popped && stackSize == old(stackSize)
      ensures manager != null ==>
        var stack := StackOf(stackType, manager.State());
        items == Layout(stackType, stack, currentPage) && stackSize == |stack| && popped == old(popped)
    {
      items := [];
      if manager == null {
        popped := true;
        return;
      }
      var stack := if stackType == UndoStack then manager.undoStack else manager.redoStack;
      stackSize := |stack|;
      var names := ReversedNames(stack);
      var body := [Inactive("Empty")];
      if stack != [] {
        body := ListPage(names, currentPage);
      }
      items := [StackLabel(stackType, |stack|), HorizontalLine] + body + Navigation(|stack|, currentPage);
    }

    /**
     * Handles a selected entry: -1 and -2 turn the page, an id k in [1, size]
     * undoes or redoes k steps and closes the menu, any other id is rejected.
     * throwsAt is passed on to the undo manager (see UndoManager.Undo).
     */
    method MenuAction(id: int, manager: UndoManager, throwsAt: nat)
      requires Valid()
      requires id == -1 ==> currentPage > 1
      modifies this, manager
      ensures Valid()
      ensures id == -1 ==> currentPage == old(currentPage) - 1 && manager.State() == old(manager.State())
      ensures id == -2 ==> currentPage == old(currentPage) + 1 && manager.State() == old(manager.State())
      ensures id == -1 || id == -2 ==>
        var stack := StackOf(stackType, manager.State());
        items == Layout(stackType, stack, currentPage) && stackSize == |stack| && popped == old(popped)
      ensures id != -1 && id != -2 && (id <= 0 || id > old(stackSize)) ==>
        manager.State() == old(manager.State()) && items == old(items) && popped == old(popped)
      ensures id != -1 && id != -2 && 0 < id <= old(stackSize) ==>
        popped && currentPage == old(currentPage) &&
        manager.State() == (if stackType == UndoStack then UndoSteps(old(manager.State()), id, throwsAt)
                            else RedoSteps(old(manager.State()), id, throwsAt))
    {
      if id == -1 {
        currentPage := currentPage - 1;
        RebuildMenu(manager);
        return;
      }
      if id == -2 {
        currentPage := currentPage + 1;
        RebuildMenu(manager);
        return;
      }
      if id <= 0 || id > stackSize {
        return;
      }
      if stackType == UndoStack {
        manager.Undo(id, throwsAt);
      } else {
        manager.Redo(id, throwsAt);
      }
      popped := true;
    }
  }

  /** Collects the action names by inserting each at the front, so the top comes first. */
  method ReversedNames(stack: seq<Action>) returns (names: seq<string>)
    ensures names == DisplayNames(stack)
  {
    names := [];
    var k := 0;
    while k < |stack|
      invariant 0 <= k <= |stack|
      invariant names == DisplayNames(stack[..k])
    {
      assert stack[..k + 1][k + 1 - 1 - 0] == stack[k];
      names := [stack[k].name] + names;
      k := k + 1;
    }
    assert stack[..k] == stack;
  }

  /** Adds the entries of one page: ids i + 1 while i < page * 10 and i < the stack size. */
  method ListPage(names: seq<string>, page: int) returns (entries: seq<Item>)
    requires page >= 1
    ensures entries == PageEntries(names, page)
  {
    entries := [];
    var i := (page - 1) * ACTIONS_ON_PAGE;
    ghost var first := i;
    while i < page * ACTIONS_ON_PAGE && i < |names|
      invariant first <= i
      invariant i <= page * ACTIONS_ON_PAGE && (i <= |names| || i == first)
      invariant entries == seq(i - first, j requires 0 <= j < i - first => Entry(first + j + 1, names[first + j]))
    {
      entries := entries + [Entry(i + 1, names[i])];
      i := i + 1;
    }
  }

  function StackOf(stackType: StackType, h: History): seq<Action> {
    if stackType == UndoStack then h.undoStack else h.redoStack
  }

  /** Choosing entry k of the undo stack undoes the k most recent actions. */
  lemma SelectingEntryUndoesThatMany(h: History, k: int)
    requires 1 <= k <= |h.undoStack|
    ensures UndoSteps(h, k, 0).undoStack == h.undoStack[..|h.undoStack| - k]
  {
  }
}
