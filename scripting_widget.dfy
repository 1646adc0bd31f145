/**
 * EditorScriptingWidget: the editor side panel that lists, for every object of
 * the sector that has script settings, one label and one button per script.
 */
module ScriptingWidget {
  import opened Geometry
  import opened Scrollbar

  /** One entry of an object's settings: its text, whether it edits a script, and the script it points at. */
  datatype ObjectOption = ObjectOption(text: string, isScript: bool, pointer: nat)

  /** The parts of a game object the widget reads; address is its identity. */
  datatype GameObject = GameObject(address: nat, singleton: bool, className: string, name: string,
                                   settings: seq<ObjectOption>)

  datatype ScriptOption = ScriptOption(name: string, value: nat)

  /** An object paired with its script options. */
  datatype ScriptEntry = ScriptEntry(obj: GameObject, options: seq<ScriptOption>)

  /** LABEL_HEIGHT, BUTTON_SPACING, SCROLLBAR_WIDTH and the scrollbar's wheel speed. */
  datatype Metrics = Metrics(labelHeight: real, buttonSpacing: real, scrollbarWidth: real, wheelSpeed: real)

  datatype Label = Label(text: string, rect: Rectf)

  /** A button editing one script of one object. */
  datatype ControlButton = ControlButton(text: string, rect: Rectf, target: nat, option: ScriptOption)

  // ---------------------------------------------------------------- options

  /** The script options among an object's settings, in settings order. */
  function ScriptOptionsOf(settings: seq<ObjectOption>): (r: seq<ScriptOption>)
    ensures |r| <= |settings|
    ensures r == [] <==> forall i :: 0 <= i < |settings| ==> !settings[i].isScript
    ensures forall o :: o in r ==>
      exists i :: 0 <= i < |settings| && settings[i].isScript && o == ScriptOption(settings[i].text, settings[i].pointer)
  {
    if settings == [] then []
    else
      var rest := ScriptOptionsOf(settings[1..]);
      assert forall i :: 1 <= i < |settings| ==> settings[i] == settings[1..][i - 1];
      if settings[0].isScript then [ScriptOption(settings[0].text, settings[0].pointer)] + rest
      else rest
  }

  /** Keeping script options commutes with concatenation, so their relative order is the settings order. */
  lemma {:induction false} ScriptOptionsKeepOrder(a: seq<ObjectOption>, b: seq<ObjectOption>)
    ensures ScriptOptionsOf(a + b) == ScriptOptionsOf(a) + ScriptOptionsOf(b)
  {
    if a == [] {
      assert a + b == b;
    } else {
      assert (a + b)[1..] == a[1..] + b;
      ScriptOptionsKeepOrder(a[1..], b);
    }
  }

  /** The entries collected from a list of objects: one per object that has a script option, in order. */
  function Collected(objects: seq<GameObject>): (r: seq<ScriptEntry>)
    ensures |r| <= |objects|
    ensures forall e :: e in r ==> e.options != [] && e.obj in objects && e.options == ScriptOptionsOf(e.obj.settings)
  {
    if objects == [] then []
    else
      var options := ScriptOptionsOf(objects[|objects| - 1].settings);
      Collected(objects[..|objects| - 1]) +
        (if options == [] then [] else [ScriptEntry(objects[|objects| - 1], options)])
  }

  /** An object with a script option is collected. */
  lemma {:induction false} ScriptedObjectIsCollected(objects: seq<GameObject>, k: nat)
    requires k < |objects| && ScriptOptionsOf(objects[k].settings) != []
    ensures ScriptEntry(objects[k], ScriptOptionsOf(objects[k].settings)) in Collected(objects)
    decreases |objects|
  {
    if k < |objects| - 1 {
      ScriptedObjectIsCollected(objects[..|objects| - 1], k);
    }
  }

  // ---------------------------------------------------------------- ordering

  /** std::string's operator<: lexicographic by character, a proper prefix first. */
  predicate LexLess(a: string, b: string)
    decreases |a|
  {
    if a == [] then b != []
    else if b == [] then false
    else if a[0] != b[0] then a[0] < b[0]
    else LexLess(a[1..], b[1..])
  }

  lemma {:induction false} LexLessIrreflexive(a: string)
    ensures !LexLess(a, a)
    decreases |a|
  {
    if a != [] {
      LexLessIrreflexive(a[1..]);
    }
  }

  lemma {:induction false} LexLessTransitive(a: string, b: string, c: string)
    requires LexLess(a, b) && LexLess(b, c)
    ensures LexLess(a, c)
    decreases |a|
  {
    if a != [] && a[0] == b[0] && b[0] == c[0] {
      LexLessTransitive(a[1..], b[1..], c[1..]);
    }
  }

  lemma {:induction false} LexLessTotal(a: string, b: string)
    requires a != b
    ensures LexLess(a, b) || LexLess(b, a)
    decreases |a|
  {
    if a != [] && b != [] && a[0] == b[0] {
      assert a == [a[0]] + a[1..] && b == [b[0]] + b[1..];
      LexLessTotal(a[1..], b[1..]);
    }
  }

  /** The sort comparator: singletons first, then by class name, then by object name. */
  predicate Before(l: GameObject, r: GameObject) {
    if l.singleton != r.singleton then l.singleton
    else if l.className != r.className then LexLess(l.className, r.className)
    else LexLess(l.name, r.name)
  }

  lemma BeforeIrreflexive(o: GameObject)
    ensures !Before(o, o)
  {
    LexLessIrreflexive(o.name);
  }

  lemma BeforeTransitive(a: GameObject, b: GameObject, c: GameObject)
    requires Before(a, b) && Before(b, c)
    ensures Before(a, c)
  {
    if a.singleton == b.singleton == c.singleton {
      if a.className == b.className == c.className {
        LexLessTransitive(a.name, b.name, c.name);
      } else if a.className != b.className && b.className != c.className {
        LexLessTransitive(a.className, b.className, c.className);
        if a.className == c.className {
          LexLessIrreflexive(a.className);
        }
      }
    }
  }

  /** Two objects neither of which sorts before the other agree on every sort key. */
  lemma BeforeIncomparableMeansSameKeys(a: GameObject, b: GameObject)
    requires !Before(a, b) && !Before(b, a)
    ensures a.singleton == b.singleton && a.className == b.className && a.name == b.name
  {
    if a.className != b.className {
      LexLessTotal(a.className, b.className);
    } else if a.name != b.name {
      LexLessTotal(a.name, b.name);
    }
  }

  ghost predicate Sorted(entries: seq<ScriptEntry>) {
    forall i, j :: 0 <= i < j < |entries| ==> !Before(entries[j].obj, entries[i].obj)
  }

  /** In a sorted list singletons come first and, among objects of one kind, class names ascend. */
  lemma SortedOrder(entries: seq<ScriptEntry>, i: nat, j: nat)
    requires Sorted(entries) && i < j < |entries|
    ensures entries[j].obj.singleton ==> entries[i].obj.singleton
    ensures entries[i].obj.singleton == entries[j].obj.singleton ==>
      !LexLess(entries[j].obj.className, entries[i].obj.className)
    ensures entries[i].obj.singleton == entries[j].obj.singleton &&
            entries[i].obj.className == entries[j].obj.className ==>
      !LexLess(entries[j].obj.name, entries[i].obj.name)
  {
    if entries[i].obj.singleton == entries[j].obj.singleton &&
       entries[i].obj.className == entries[j].obj.className {
      LexLessIrreflexive(entries[i].obj.className);
    }
  }

  /** std::sort: some ordering of the entries that the comparator accepts. */
  method SortedEntries(s: seq<ScriptEntry>) returns (r: seq<ScriptEntry>)
    ensures Sorted(r) && multiset(r) == multiset(s)
  {
    r := [];
    var i := 0;
    while i < |s|
      invariant 0 <= i <= |s|
      invariant Sorted(r) && multiset(r) == multiset(s[..i])
    {
      var x := s[i];
      var k := InsertionPoint(r, x);
      SortStep(s, i, r, k);
      r := r[..k] + [x] + r[k..];
      i := i + 1;
    }
    assert s[..i] == s;
  }

  /** The first position whose entry x goes before, or the end. */
  method InsertionPoint(r: seq<ScriptEntry>, x: ScriptEntry) returns (k: nat)
    ensures k <= |r|
    ensures forall m :: 0 <= m < k ==> !Before(x.obj, r[m].obj)
    ensures k < |r| ==> Before(x.obj, r[k].obj)
  {
    k := 0;
    while k < |r| && !Before(x.obj, r[k].obj)
      invariant 0 <= k <= |r|
      invariant forall m :: 0 <= m < k ==> !Before(x.obj, r[m].obj)
    {
      k := k + 1;
    }
  }

  /** One insertion step keeps the sort's invariant for the longer prefix. */
  lemma {:induction false} SortStep(s: seq<ScriptEntry>, i: nat, r: seq<ScriptEntry>, k: nat)
    requires i < |s| && k <= |r|
    requires Sorted(r) && multiset(r) == multiset(s[..i])
    requires forall m :: 0 <= m < k ==> !Before(s[i].obj, r[m].obj)
    requires k < |r| ==> Before(s[i].obj, r[k].obj)
    ensures Sorted(r[..k] + [s[i]] + r[k..]) && multiset(r[..k] + [s[i]] + r[k..]) == multiset(s[..i + 1])
  {
    InsertKeepsSorted(r, k, s[i]);
    assert r == r[..k] + r[k..];
    assert s[..i + 1] == s[..i] + [s[i]];
  }

  lemma {:induction false} InsertKeepsSorted(r: seq<ScriptEntry>, k: nat, x: ScriptEntry)
    requires Sorted(r) && k <= |r|
    requires forall m :: 0 <= m < k ==> !Before(x.obj, r[m].obj)
    requires k < |r| ==> Before(x.obj, r[k].obj)
    ensures Sorted(r[..k] + [x] + r[k..])
  {
    var t := r[..k] + [x] + r[k..];
    forall i, j | 0 <= i < j < |t|
      ensures !Before(t[j].obj, t[i].obj)
    {
      if j == k {
        assert t[i] == r[i];
      } else if i == k {
        assert t[j] == r[j - 1];
        if Before(r[j - 1].obj, x.obj) {
          if j - 1 == k {
            BeforeTransitive(x.obj, r[k].obj, x.obj);
            BeforeIrreflexive(x.obj);
          } else {
            BeforeTransitive(r[j - 1].obj, x.obj, r[k].obj);
          }
        }
      } else {
        assert t[i] == r[if i < k then i else i - 1];
        assert t[j] == r[if j < k then j else j - 1];
      }
    }
  }

  // ---------------------------------------------------------------- removal

  /** The entries whose object is still valid, in their original order. */
  function Surviving(entries: seq<ScriptEntry>, deleted: set<nat>): (r: seq<ScriptEntry>)
    ensures |r| <= |entries|
  {
    if entries == [] then []
    else
      var last := entries[|entries| - 1];
      Surviving(entries[..|entries| - 1], deleted) + (if last.obj.address in deleted then [] else [last])
  }

  /** Removal keeps exactly the entries whose object is not deleted. */
  lemma {:induction false} SurvivingMembers(entries: seq<ScriptEntry>, deleted: set<nat>)
    ensures forall e :: e in Surviving(entries, deleted) <==> e in entries && e.obj.address !in deleted
  {
    if entries != [] {
      var init := entries[..|entries| - 1];
      SurvivingMembers(init, deleted);
      assert entries == init + [entries[|entries| - 1]];
    }
  }

  /** The list shrinks exactly when some entry's object was deleted, and is otherwise left as it was. */
  lemma {:induction false} SurvivingShrinks(entries: seq<ScriptEntry>, deleted: set<nat>)
    ensures (forall i :: 0 <= i < |entries| ==> entries[i].obj.address !in deleted) ==> Surviving(entries, deleted) == entries
    ensures (exists i :: 0 <= i < |entries| && entries[i].obj.address in deleted) ==> |Surviving(entries, deleted)| < |entries|
  {
    if entries != [] {
      var init := entries[..|entries| - 1];
      SurvivingShrinks(init, deleted);
      assert entries == init + [entries[|entries| - 1]];
      if exists i :: 0 <= i < |entries| && entries[i].obj.address in deleted {
        var i :| 0 <= i < |entries| && entries[i].obj.address in deleted;
        if i < |entries| - 1 {
          assert init[i] == entries[i];
        }
      }
    }
  }

  /** Removal keeps relative order: it commutes with concatenation. */
  lemma {:induction false} SurvivingKeepsOrder(a: seq<ScriptEntry>, b: seq<ScriptEntry>, deleted: set<nat>)
    ensures Surviving(a + b, deleted) == Surviving(a, deleted) + Surviving(b, deleted)
    decreases |b|
  {
    if b == [] {
      assert a + b == a;
    } else {
      var b' := b[..|b| - 1];
      assert (a + b)[..|a + b| - 1] == a + b';
      SurvivingKeepsOrder(a, b', deleted);
    }
  }

  /** std::remove_if with a flag recording whether anything was removed. */
  method RemoveInvalid(entries: seq<ScriptEntry>, deleted: set<nat>) returns (kept: seq<ScriptEntry>, objectDeleted: bool)
    ensures kept == Surviving(entries, deleted)
    ensures objectDeleted <==> exists i :: 0 <= i < |entries| && entries[i].obj.address in deleted
  {
    kept := [];
    objectDeleted := false;
    var i := 0;
    while i < |entries|
      invariant 0 <= i <= |entries|
      invariant kept == Surviving(entries[..i], deleted)
      invariant objectDeleted <==> |kept| < i
      invariant |kept| <= i
    {
      assert entries[..i + 1][..i] == entries[..i];
      assert entries[..i + 1][i] == entries[i];
      if entries[i].obj.address in deleted {
        objectDeleted := true;
      } else {
        kept := kept + [entries[i]];
      }
      i := i + 1;
    }
    assert entries[..i] == entries;
    SurvivingShrinks(entries, deleted);
  }

  // ---------------------------------------------------------------- layout

  /** The top of row i: 20 below the widget's top, rows 2 * LABEL_HEIGHT apart. */
  function RowTop(rect: Rectf, m: Metrics, i: nat): real {
    rect.Top() + 20.0 + 2.0 * m.labelHeight * i as real
  }

  function LabelText(o: GameObject): string {
    o.className + " \"" + o.name + "\""
  }

  /** The label of row i is a zero-width rect at x = 20. */
  function LabelOf(e: ScriptEntry, rect: Rectf, m: Metrics, i: nat): (l: Label)
    ensures l.rect.Left() == 20.0 && l.rect.Right() == 20.0 && l.rect.Top() == RowTop(rect, m, i)
  {
    Label(LabelText(e.obj), FromPointSize(Vec(20.0, RowTop(rect, m, i)), Vec(0.0, m.labelHeight)))
  }

  /** The n buttons of a row share the width left between the label and the scrollbar. */
  function ButtonWidth(rect: Rectf, m: Metrics, n: nat): real
    requires n > 0
  {
    ((rect.Right() - 20.0) - m.buttonSpacing * n as real - m.scrollbarWidth - 20.0) / n as real
  }

  /** The k-th button of row i starts at 40 and each later one is width + spacing further right. */
  function ButtonOf(e: ScriptEntry, rect: Rectf, m: Metrics, i: nat, k: nat): (b: ControlButton)
    requires k < |e.options|
    ensures b.rect.Top() == RowTop(rect, m, i) && b.rect.Height() == m.labelHeight
    ensures b.rect.Width() == ButtonWidth(rect, m, |e.options|)
    ensures b.option == e.options[k] && b.target == e.obj.address
  {
    var w := ButtonWidth(rect, m, |e.options|);
    ControlButton(e.options[k].name,
                  FromPointSize(Vec(40.0 + k as real * (w + m.buttonSpacing), RowTop(rect, m, i)), Vec(w, m.labelHeight)),
                  e.obj.address, e.options[k])
  }

  function RowButtons(e: ScriptEntry, rect: Rectf, m: Metrics, i: nat, count: nat): (r: seq<ControlButton>)
    requires count <= |e.options|
    ensures |r| == count
    ensures forall k :: 0 <= k < count ==> r[k] == ButtonOf(e, rect, m, i, k)
  {
    if count == 0 then [] else RowButtons(e, rect, m, i, count - 1) + [ButtonOf(e, rect, m, i, count - 1)]
  }

  /** Every button of the first n rows, row by row. */
  function Buttons(entries: seq<ScriptEntry>, rect: Rectf, m: Metrics, n: nat): seq<ControlButton>
    requires n <= |entries|
  {
    if n == 0 then [] else Buttons(entries, rect, m, n - 1) + RowButtons(entries[n - 1], rect, m, n - 1, |entries[n - 1].options|)
  }

  function Labels(entries: seq<ScriptEntry>, rect: Rectf, m: Metrics, n: nat): (r: seq<Label>)
    requires n <= |entries|
    ensures |r| == n
    ensures forall i :: 0 <= i < n ==> r[i] == LabelOf(entries[i], rect, m, i)
  {
    if n == 0 then [] else Labels(entries, rect, m, n - 1) + [LabelOf(entries[n - 1], rect, m, n - 1)]
  }

  function OptionCount(entries: seq<ScriptEntry>): nat {
    if entries == [] then 0 else OptionCount(entries[..|entries| - 1]) + |entries[|entries| - 1].options|
  }

  /** There is one button per script option. */
  lemma {:induction false} OneButtonPerOption(entries: seq<ScriptEntry>, rect: Rectf, m: Metrics, n: nat)
    requires n <= |entries|
    ensures |Buttons(entries, rect, m, n)| == OptionCount(entries[..n])
  {
    if n > 0 {
      OneButtonPerOption(entries, rect, m, n - 1);
      assert entries[..n][..n - 1] == entries[..n - 1];
    }
  }

  /** Row i's buttons follow those of the rows above it, and all sit on row i's top. */
  lemma {:induction false} ButtonsOfRow(entries: seq<ScriptEntry>, rect: Rectf, m: Metrics, n: nat, i: nat, k: nat)
    requires i < n <= |entries| && k < |entries[i].options|
    ensures OptionCount(entries[..i]) + k < |Buttons(entries, rect, m, n)|
    ensures Buttons(entries, rect, m, n)[OptionCount(entries[..i]) + k] == ButtonOf(entries[i], rect, m, i, k)
  {
    OneButtonPerOption(entries, rect, m, n - 1);
    var above := Buttons(entries, rect, m, n - 1);
    var row := RowButtons(entries[n - 1], rect, m, n - 1, |entries[n - 1].options|);
    assert Buttons(entries, rect, m, n) == above + row;
    var idx := OptionCount(entries[..i]) + k;
    if i < n - 1 {
      ButtonsOfRow(entries, rect, m, n - 1, i, k);
      assert (above + row)[idx] == above[idx];
    } else {
      assert entries[..n - 1] == entries[..i];
      assert idx == |above| + k;
      assert (above + row)[idx] == row[k];
    }
  }

  /** Each row sits 2 * LABEL_HEIGHT below the one before it; the first is at the widget's top + 20. */
  lemma RowSpacing(rect: Rectf, m: Metrics, i: nat)
    ensures RowTop(rect, m, 0) == rect.Top() + 20.0
    ensures RowTop(rect, m, i + 1) == RowTop(rect, m, i) + 2.0 * m.labelHeight
  {
  }

  // ---------------------------------------------------------------- widget

  class EditorScriptingWidget {
    const metrics: Metrics
    const scrollProgress: ProgressCell
    var rect: Rectf
    var collapsed: bool
    var mousePos: Vec
    var scriptOptions: seq<ScriptEntry>
    var controls: seq<ControlButton>
    var labels: seq<Label>
    var scrollbar: ControlScrollbar?

    /** Every listed object has a script option; the scrollbar, once made, scrolls this widget's progress. */
    ghost predicate Valid()
      reads this, scrollbar
    {
      rect.Width() >= 0.0 && rect.Height() >= 0.0 && metrics.scrollbarWidth >= 0.0 &&
      (forall i :: 0 <= i < |scriptOptions| ==> scriptOptions[i].options != []) &&
      (scrollbar != null ==> scrollbar.Valid() && scrollbar.progress == scrollProgress)
    }

    /** Controls, labels and scrollbar as initialize_controls lays them out for the current list. */
    ghost predicate LaidOut()
      reads this, scrollbar
      requires Valid()
    {
      labels == Labels(scriptOptions, rect, metrics, |scriptOptions|) &&
      controls == Buttons(scriptOptions, rect, metrics, |scriptOptions|) &&
      scrollbar != null &&
      scrollbar.totalRegion == Max(RowTop(rect, metrics, |scriptOptions|), rect.Height()) &&
      scrollbar.coveredRegion == rect.Height() &&
      scrollbar.rect == FromEdges(rect.Right() - metrics.scrollbarWidth, rect.Top(), rect.Right(), rect.Bottom())
    }

    constructor (metrics: Metrics)
      requires metrics.scrollbarWidth >= 0.0
      ensures Valid() && collapsed && scrollProgress.value == 0.0 && fresh(scrollProgress)
      ensures scriptOptions == [] && controls == [] && labels == [] && scrollbar == null
      ensures this.metrics == metrics
    {
      this.metrics := metrics;
      scrollProgress := new ProgressCell(0.0);
      rect := Rectf(Vec(0.0, 0.0), Vec(0.0, 0.0), 0.0);
      collapsed := true;
      mousePos := Vec(0.0, 0.0);
      scriptOptions := [];
      controls := [];
      labels := [];
      scrollbar := null;
    }

    /** Appends the object with its script options, unless it has none. */
    method InsertObject(obj: GameObject)
      requires Valid()
      modifies this
      ensures Valid()
      ensures var options := ScriptOptionsOf(obj.settings);
        scriptOptions == old(scriptOptions) + (if options == [] then [] else [ScriptEntry(obj, options)])
      ensures rect == old(rect) && collapsed == old(collapsed) && controls == old(controls)
      ensures labels == old(labels) && scrollbar == old(scrollbar) && mousePos == old(mousePos)
    {
      var options := CollectScriptOptions(obj.settings);
      if options != [] {
        ghost var before := scriptOptions;
        scriptOptions := scriptOptions + [ScriptEntry(obj, options)];
        assert forall i :: 0 <= i < |scriptOptions| ==> scriptOptions[i] == (if i < |before| then before[i] else ScriptEntry(obj, options));
      }
    }

    /** Sorts the list with the comparator; the order among objects with equal keys is unspecified. */
    method SortObjects()
      requires Valid()
      modifies this
      ensures Valid()
      ensures Sorted(scriptOptions) && multiset(scriptOptions) == multiset(old(scriptOptions))
      ensures rect == old(rect) && collapsed == old(collapsed) && controls == old(controls)
      ensures labels == old(labels) && scrollbar == old(scrollbar) && mousePos == old(mousePos)
    {
      var sorted := SortedEntries(scriptOptions);
      forall i | 0 <= i < |sorted|
        ensures sorted[i].options != []
      {
        assert sorted[i] in multiset(scriptOptions);
      }
      scriptOptions := sorted;
    }

    /** Rebuilds one label per entry, one button per script option and a fresh scrollbar. */
    method InitializeControls()
      requires Valid()
      modifies this
      ensures Valid() && LaidOut() && fresh(scrollbar)
      ensures rect == old(rect) && collapsed == old(collapsed) && scriptOptions == old(scriptOptions)
      ensures mousePos == old(mousePos)
    {
      var newLabels, newControls, top := LayOut(scriptOptions, rect, metrics);
      controls := newControls;
      labels := newLabels;
      var bar := new ControlScrollbar(top, rect.Height(), scrollProgress, metrics.wheelSpeed);
      bar.SetRect(FromEdges(rect.Right() - metrics.scrollbarWidth, rect.Top(), rect.Right(), rect.Bottom()));
      scrollbar := bar;
    }

    /** Resets the widget to a collapsed half-screen panel listing the given objects, sorted. */
    method Setup(objects: seq<GameObject>, screenWidth: int, screenHeight: int)
      requires Valid() && screenWidth >= 0 && screenHeight >= 0
      modifies this, scrollProgress
      ensures Valid() && LaidOut() && fresh(scrollbar)
      ensures rect == FromPointSize(Vec(0.0, 0.0), Vec(screenWidth as real / 2.0, screenHeight as real / 2.0))
      ensures collapsed && scrollProgress.value == 0.0
      ensures Sorted(scriptOptions) && multiset(scriptOptions) == multiset(Collected(objects))
    {
      rect := FromPointSize(Vec(0.0, 0.0), Vec(screenWidth as real / 2.0, screenHeight as real / 2.0));
      collapsed := true;
      scrollProgress.value := 0.0;
      scriptOptions := [];
      var i := 0;
      while i < |objects|
        invariant 0 <= i <= |objects|
        invariant Valid() && scriptOptions == Collected(objects[..i])
        invariant rect == FromPointSize(Vec(0.0, 0.0), Vec(screenWidth as real / 2.0, screenHeight as real / 2.0))
        invariant collapsed && scrollProgress.value == 0.0
      {
        assert objects[..i + 1][..i] == objects[..i];
        InsertObject(objects[i]);
        i := i + 1;
      }
      assert objects[..i] == objects;
      SortObjects();
      InitializeControls();
    }

    /** Drops the entries of deleted objects; only when one was dropped are the list re-sorted and the controls rebuilt. */
    method Update(deleted: set<nat>) returns (objectDeleted: bool)
      requires Valid()
      modifies this
      ensures Valid() && rect == old(rect) && collapsed == old(collapsed) && mousePos == old(mousePos)
      ensures objectDeleted <==> exists i :: 0 <= i < |old(scriptOptions)| && old(scriptOptions)[i].obj.address in deleted
      ensures !objectDeleted ==>
        scriptOptions == old(scriptOptions) && controls == old(controls) &&
        labels == old(labels) && scrollbar == old(scrollbar)
      ensures objectDeleted ==>
        Sorted(scriptOptions) && LaidOut() && fresh(scrollbar) &&
        multiset(scriptOptions) == multiset(Surviving(old(scriptOptions), deleted))
    {
      var kept;
      kept, objectDeleted := RemoveInvalid(scriptOptions, deleted);
      SurvivingMembers(scriptOptions, deleted);
      SurvivingShrinks(scriptOptions, deleted);
      assert forall i :: 0 <= i < |kept| ==> kept[i] in scriptOptions;
      scriptOptions := kept;
      if objectDeleted {
        SortObjects();
        InitializeControls();
      }
    }

    /** Inserts one object, then re-sorts and rebuilds the controls. */
    method AddObject(obj: GameObject)
      requires Valid()
      modifies this
      ensures Valid() && LaidOut() && fresh(scrollbar) && Sorted(scriptOptions)
      ensures var options := ScriptOptionsOf(obj.settings);
        multiset(scriptOptions) == multiset(old(scriptOptions)) + multiset(if options == [] then [] else [ScriptEntry(obj, options)])
      ensures rect == old(rect) && collapsed == old(collapsed)
    {
      InsertObject(obj);
      SortObjects();
      InitializeControls();
    }

    method Show()
      modifies this
      ensures !collapsed
      ensures rect == old(rect) && scriptOptions == old(scriptOptions) && controls == old(controls)
      ensures labels == old(labels) && scrollbar == old(scrollbar) && mousePos == old(mousePos)
    {
      collapsed := false;
    }

    method Hide()
      modifies this
      ensures collapsed
      ensures rect == old(rect) && scriptOptions == old(scriptOptions) && controls == old(controls)
      ensures labels == old(labels) && scrollbar == old(scrollbar) && mousePos == old(mousePos)
    {
      collapsed := true;
    }
  }

  /** The loop of initialize_controls: labels and buttons row by row, and the top below the last row. */
  method LayOut(entries: seq<ScriptEntry>, rect: Rectf, m: Metrics)
    returns (labels: seq<Label>, controls: seq<ControlButton>, top: real)
    requires forall i :: 0 <= i < |entries| ==> entries[i].options != []
    ensures labels == Labels(entries, rect, m, |entries|)
    ensures controls == Buttons(entries, rect, m, |entries|)
    ensures top == RowTop(rect, m, |entries|)
  {
    labels := [];
    controls := [];
    top := rect.Top() + 20.0;
    var i := 0;
    while i < |entries|
      invariant 0 <= i <= |entries|
      invariant top == RowTop(rect, m, i)
      invariant labels == Labels(entries, rect, m, i)
      invariant controls == Buttons(entries, rect, m, i)
    {
      var entry := entries[i];
      var rowLabel := Label(LabelText(entry.obj), FromPointSize(Vec(20.0, top), Vec(0.0, m.labelHeight)));
      labels := labels + [rowLabel];
      var row := LayOutRow(entry, rect, m, i, top, rowLabel.rect.Right());
      controls := controls + row;
      top := top + m.labelHeight * 2.0;
      i := i + 1;
    }
  }

  /** The inner loop of initialize_controls: the buttons of row i, left to right from the label's right + 20. */
  method LayOutRow(entry: ScriptEntry, rect: Rectf, m: Metrics, i: nat, top: real, labelRight: real)
    returns (row: seq<ControlButton>)
    requires entry.options != [] && top == RowTop(rect, m, i) && labelRight == 20.0
    ensures row == RowButtons(entry, rect, m, i, |entry.options|)
  {
    var n := |entry.options|;
    var buttonLeft := labelRight + 20.0;
    var buttonWidth := ((rect.Right() - labelRight) - m.buttonSpacing * n as real - m.scrollbarWidth - 20.0) / n as real;
    assert buttonWidth == ButtonWidth(rect, m, n);
    row := [];
    var k := 0;
    while k < n
      invariant 0 <= k <= n
      invariant buttonLeft == 40.0 + k as real * (buttonWidth + m.buttonSpacing)
      invariant row == RowButtons(entry, rect, m, i, k)
    {
      var option := entry.options[k];
      row := row + [ControlButton(option.name,
                                  FromPointSize(Vec(buttonLeft, top), Vec(buttonWidth, m.labelHeight)),
                                  entry.obj.address, option)];
      assert row[k] == ButtonOf(entry, rect, m, i, k);
      assert (k + 1) as real * (buttonWidth + m.buttonSpacing) == k as real * (buttonWidth + m.buttonSpacing) + (buttonWidth + m.buttonSpacing);
      buttonLeft := buttonLeft + buttonWidth + m.buttonSpacing;
      k := k + 1;
    }
  }

  /** The loop of insert_object that keeps the script options of an object's settings. */
  method CollectScriptOptions(settings: seq<ObjectOption>) returns (r: seq<ScriptOption>)
    ensures r == ScriptOptionsOf(settings)
  {
    r := [];
    var i := 0;
    while i < |settings|
      invariant 0 <= i <= |settings|
      invariant r == ScriptOptionsOf(settings[..i])
    {
      ScriptOptionsKeepOrder(settings[..i], [settings[i]]);
      assert settings[..i + 1] == settings[..i] + [settings[i]];
      if settings[i].isScript {
        r := r + [ScriptOption(settings[i].text, settings[i].pointer)];
      }
      i := i + 1;
    }
    assert settings[..i] == settings;
  }
}
