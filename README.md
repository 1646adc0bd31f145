# SuperTux core, modelled in Dafny

This project models part of the SuperTux game engine and editor, and proves properties of that model. It covers:

- **Collision.** Axis-aligned rectangles (`Rectf`), the `Constraints` a collision accumulates, the rectangle-rectangle solver, line/rectangle and line/line intersection, and the plane test a moving object uses against a sloped tile.
- **Editor state.** The undo manager (undo and redo stacks, the index position, trimming to the maximum size) and the undo-stack menu. The control scrollbar and its shared progress. The buttons and the scripting widget with its sorted, self-pruning entry list.
- **Seed finder.** The search conditions, the preparation and stable ordering of randomizations, and the seed-finder, random-seed and editor menus that drive it.
- **Legacy level format.** The level, its three tile layers with the version-0 tile conversion, the tile table with its includes, groups and frame animation, and the sprite manager's resource file.
- **Add-ons.** Add-on descriptions, their type and version rules, the repository index, and the add-on manager: enabling, disabling, dependencies and archive scanning.
- **Menus with checks.** The profile menu and the new-profile and new-worldmap menus.
- **Badguys.** The Zeekling (fly, dive, climb and recover) and the SkullyHop (stand, charge and jump) state machines.

Objects whose fields the engine updates in place are classes with `modifies` frames. Value types and pure computations are datatypes and functions. Loops in the engine are methods with loop invariants, proved against specification functions. Floats are `real`. C++ integer division, the float-to-int cast and the unsigned tile type are modelled explicitly in `CInt`. File-system queries, random draws, the clock and the scripting engine become parameters.

## Model

| member | source | states |
|---|---|---|
| Geometry.XYLessIsStrict | src/math/vector.cpp:23-29 | x_y_sorter is irreflexive and asymmetric |
| Geometry.XYLessTransitive | src/math/vector.cpp:23-29 | x_y_sorter is transitive |
| Geometry.XYLessTrichotomy | src/math/vector.cpp:23-29 | two vectors differ exactly when x_y_sorter orders them one way, and never both ways |
| Geometry.YXLessIsSwappedXYLess | src/math/vector.cpp:31-37 | y_x_sorter is x_y_sorter applied to the vectors with their axes exchanged |
| Geometry.FMod | src/math/rectf.cpp:78-85 | fmodf of a non-negative angle: a remainder in [0, m) with a = floor(a/m)*m + r |
| Geometry.Rectf.SetLeft | src/math/rectf.hpp:106 | set_left moves the left edge to v and keeps the right, top and bottom edges and the angle |
| Geometry.Rectf.SetRight | src/math/rectf.hpp:107 | set_right moves the right edge to v and keeps the corner, the height and the angle |
| Geometry.Rectf.SetTop | src/math/rectf.hpp:109 | set_top moves the top edge to v and keeps the bottom, left and right edges and the angle |
| Geometry.Rectf.SetBottom | src/math/rectf.hpp:110 | set_bottom moves the bottom edge to v and keeps the corner, the width and the angle |
| Geometry.Rectf.SetP1 | src/math/rectf.hpp:173-177 | set_p1 moves the upper-left corner to p and leaves the lower-right corner where it was |
| Geometry.Rectf.SetP2 | src/math/rectf.hpp:178-181 | set_p2 moves the lower-right corner to p and leaves the upper-left corner where it was |
| Geometry.Rectf.Move | src/math/rectf.hpp:134 | move translates the corner by v and keeps the size and the angle |
| Geometry.Rectf.Moved | src/math/rectf.hpp:135 | moved returns a translated copy with the same size whose angle is reset to 0 |
| Geometry.Rectf.Grown | src/math/rectf.hpp:156-165 | grown returns the rectangle unchanged when a side would become negative, and otherwise pushes every edge outward by border and keeps the angle |
| Geometry.Rectf.Corners | src/math/rectf.cpp:36-44 | the four unrotated corners are p1, top-right, bottom-left and p2, in that order |
| Geometry.FromPointSize | src/math/rectf.hpp:71-76 | the corner/size constructor stores both and an angle of 0 |
| Geometry.FromEdges | src/math/rectf.hpp:64-69 | the edge constructor (which asserts a non-negative size) has exactly those edges and the given angle, and is non-empty iff both extents are positive |
| Geometry.FromCenter | src/math/rectf.hpp:39-45 | from_center gives a rectangle of the given size whose middle is the given centre |
| Geometry.SameRectIgnoresAngle | src/math/rectf.hpp:85-89 | operator== ignores the angle, so two rectangles differing only in angle compare equal |
| Geometry.EdgesFromSize | src/math/rectf.hpp:95-131 | right = left + width and bottom = top + height; empty iff an extent is not positive |
| Geometry.OverlapsIsStrictIntervalOverlap | src/math/rectf.cpp:153-167 | unrotated "contains" of a rectangle is strict overlap of both intervals, and is symmetric |
| Geometry.NonPositiveAngleIsNotRotated | src/math/rectf.cpp:78-85 | a rectangle with angle <= 0 is not rotated |
| Geometry.MultipleOf180IsNotRotated | src/math/rectf.cpp:78-85 | a rectangle whose angle is a multiple of 180 is not rotated |
| Lines.Line.Project | src/math/line.cpp:19-26 | for a unit direction, dest minus its projection is perpendicular to the direction (an orthogonal projection) |
| Lines.ProjectIsOnLine | src/math/line.cpp:19-26 | the projection is a point of the line: the origin plus a multiple of the direction |
| Lines.ProjectFixesLinePoints | src/math/line.cpp:19-26 | for a unit direction, a point already on the line projects to itself |
| Lines.ProjectIdempotent | src/math/line.cpp:19-26 | for a unit direction, projecting a projection changes nothing |
| Lines.NearestPointX | src/math/line.cpp:31-48 | with allow_outside_line the interpolated x is returned as is; otherwise the result lies within the segment's x range, equals the interpolation when that is inside, and is clamped to the nearer end when it is outside |
| Lines.HorizontalLineGivesPointX | src/math/line.cpp:35 | for a horizontal segment the interpolation is p.x, kept when it lies on the segment |
| Lines.InterpolateXAtEndpoints | src/math/line.cpp:35 | the interpolation passes through both end points of the segment |
| Lines.VerticalSegmentGivesItsX | src/math/line.cpp:31-48 | on a vertical segment every height maps to the segment's own x |
| Lines.NearestPointYMirrorsX | src/math/line.cpp:50-67 | get_nearest_point_y is get_nearest_point_x applied with the axes exchanged |
| FileSystem.Join | src/file_system.cpp:144-148 | join is lhs, then exactly one '/', then rhs |
| FileSystem.Extension | src/file_system.cpp:150-158 | without a '.' the extension is ""; otherwise it is the non-empty suffix that starts at the last '.' and contains no further dot |
| FileSystem.ExtensionOfDottedDirectory | src/file_system.cpp:153-157 | the last '.' is searched in the whole path, so a dot in a directory name yields ".d/file" |
| FileSystem.JoinKeepsSeparators | src/file_system.cpp:144-148 | join never normalises: ("", "a") gives "/a" and ("a/", "b") gives "a//b" |
| Collision.MergeHit | src/collision/collision.cpp:34-38 | merge_constraints or-s the four side flags and crush, and keeps its own slope normal |
| Collision.MergeBounds | src/collision/collision.cpp:29-32 | merging narrows the left/top bounds to the larger and the right/bottom bounds to the smaller of the two |
| Collision.ConstrainNeverLoosens | src/collision/collision.hpp:53-71 | a constrain_* call only raises a lower bound or lowers an upper bound, and the result respects the given position |
| Collision.ConstrainOrderIrrelevant | src/collision/collision.hpp:53-71 | two constrain calls on one side commute, and repeating a call changes nothing |
| Collision.NarrowingNeverWidens | src/collision/collision.hpp:53-89 | narrowing a bound never increases get_width or get_height |
| Collision.MergeAlgebra | src/collision/collision.cpp:27-39 | merging bounds is commutative, associative and idempotent; merging flags is associative and commutative up to the kept slope normal |
| Collision.Constraints.constructor | src/collision/collision.hpp:36-42 | a fresh Constraints has every bound at its infinity, no hit, and reports no constraint on any side or axis |
| Collision.Constraints.Height | src/collision/collision.hpp:88 | get_height is finite exactly when top and bottom are both constrained, and is then bottom - top |
| Collision.Constraints.Width | src/collision/collision.hpp:89 | get_width is finite exactly when left and right are both constrained, and is then right - left |
| Collision.Constraints.XMidpoint | src/collision/collision.hpp:91 | get_x_midpoint is finite exactly when both horizontal bounds are set, is then their average, and is NaN (None) when neither is set |
| Collision.Constraints.ConstrainLeft | src/collision/collision.hpp:53-56 | constrain_left replaces the left bound by the larger of it and the position, and changes nothing else |
| Collision.Constraints.ConstrainRight | src/collision/collision.hpp:58-61 | constrain_right replaces the right bound by the smaller of it and the position, and changes nothing else |
| Collision.Constraints.ConstrainTop | src/collision/collision.hpp:63-66 | constrain_top replaces the top bound by the larger of it and the position, and changes nothing else |
| Collision.Constraints.ConstrainBottom | src/collision/collision.hpp:68-71 | constrain_bottom replaces the bottom bound by the smaller of it and the position, and changes nothing else |
| Collision.Constraints.MergeConstraints | src/collision/collision.cpp:27-39 | the new bounds are MergeBounds of the old ones and the new hit is MergeHit of the old hits, also when other is this object |
| Collision.Constraints.SetRectangleRectangleConstraints | src/collision/collision.cpp:167-199 | for unrotated rectangles, exactly the bound RectRectResolution picks is narrowed to the chosen edge of r2 and that side's hit flag is set |
| Collision.Constraints.RectangleAATriangle | src/collision/collision.cpp:69-165 | returns whether SlopeDecision collides; a collision applies ApplySlope to the bounds and hit, a miss changes nothing; hits_rectangle_bottom becomes true exactly on a direct push upward |
| Collision.Constraints.PushOut | src/collision/collision.cpp:144-162 | the direct push narrows the right or left bound and the bottom or top bound by the push vector, marks those two sides, records the normal, and reports a bottom hit exactly when the push is upward |
| Collision.RectRectResolution | src/collision/collision.cpp:175-198 | the resolver pushes across one side, to the matching edge of r2 (bottom to r2's top, and so on) |
| Collision.ResolutionMinimisesPenetration | src/collision/collision.cpp:175-198 | the chosen side has the smallest penetration of the four |
| Collision.ResolutionTieBreaks | src/collision/collision.cpp:182-197 | equal vertical and horizontal penetration resolves horizontally; equal sides resolve to top or to left |
| Collision.ResolutionExample | src/collision/collision.cpp:175-198 | a rectangle overlapping the left half of another is pushed out to the other's left edge |
| Collision.ResolutionTouchesOneSide | src/collision/collision.cpp:182-197 | one bound and one flag change, the others, crush and the slope normal stay, and the bounds stay well formed |
| Collision.WorkArea | src/collision/collision.cpp:80-103 | the slope's area is the whole bounding box or the half named by the deform bits; an unknown deform value fails the assertion |
| Collision.TestCorner | src/collision/collision.cpp:105-126 | the tested corner is bottom-left, top-right, bottom-right or top-left for SW, NE, SE and NW; an unknown direction fails the assertion |
| Collision.MakePlane | src/collision/collision.cpp:51-58 | the normal (p2.y - p1.y, p1.x - p2.x) scaled by the length, and the offset, put both points on the plane |
| Collision.SlopeDecision | src/collision/collision.cpp:73-141 | no overlap of the boxes gives false; an unknown deform or direction is the assertion failure; a negative depth means the corner is outside |
| Collision.SlopeResolutionSides | src/collision/collision.cpp:143-161 | a direct slope push sets exactly one of left/right and one of top/bottom and records the normal; the rectangle fallback sets exactly one side and keeps the normal |
| Collision.ParallelApartNeverIntersect | src/collision/collision.cpp:525-529 | parallel segments on different lines never intersect |
| Collision.CollinearUsesIntervals | src/collision/collision.cpp:525-537 | collinear segments intersect iff their intervals meet, on y for a vertical line and on x otherwise |
| Collision.SameSideNeverIntersects | src/collision/collision.cpp:512-545 | when both ends of the second segment are strictly on one side of the first line, there is no intersection |
| Collision.StraddlingSegmentsIntersect | src/collision/collision.cpp:512-545 | when each segment has its two ends strictly on opposite sides of the other segment's line, the segments are reported as intersecting |
| Collision.CrossingDiagonalsIntersect | src/collision/collision.cpp:512-545 | the two diagonals of a square intersect; two parallel horizontal segments do not |
| Collision.SegmentInsideDoesNotIntersect | src/collision/collision.cpp:549-560 | intersects_line tests the edges only, so a segment strictly inside the rectangle does not intersect it |
| Undo.Trimmed | src/editor/undo_manager.cpp:58-66 | cleanup keeps the newest min(size, max) actions; a negative maximum, converted to a huge size_t, trims nothing |
| Undo.Transfer | src/editor/undo_manager.cpp:98-99 | moving k actions takes the top k off the source and appends them to the destination topmost first |
| Undo.UndoSteps | src/editor/undo_manager.cpp:76-103 | undo never loses an action (the two stack sizes add up as before), and an empty stack or a step count outside 1..size changes nothing |
| Undo.RedoSteps | src/editor/undo_manager.cpp:105-132 | the mirror of UndoSteps on the redo stack |
| Undo.UndoMovesTopK | src/editor/undo_manager.cpp:86-102 | a successful undo(k) moves the top k actions to the redo stack, newest first, and lowers the index by k |
| Undo.UndoThenRedoRestores | src/editor/undo_manager.cpp:76-132 | redo(k) after undo(k) restores both stacks and the index when no action throws |
| Undo.UndoStopsAtThrow | src/editor/undo_manager.cpp:88-96 | when step j throws, the j - 1 earlier steps stay undone and the failing action stays on top |
| Undo.UndoManager.constructor | src/editor/undo_manager.cpp:24-29 | a new manager has empty stacks and index 0 |
| Undo.UndoManager.PushAction | src/editor/undo_manager.cpp:31-46 | the action already on top of the stack is skipped; any other action is pushed, the redo stack cleared, the index raised and the stack trimmed |
| Undo.UndoManager.PushUndoStack | src/editor/undo_manager.cpp:48-56 | clears the redo stack, appends the action, raises the index and trims the stack |
| Undo.UndoManager.Cleanup | src/editor/undo_manager.cpp:58-66 | the loop leaves Trimmed of the old stack and changes nothing else |
| Undo.UndoManager.ResetIndex | src/editor/undo_manager.cpp:68-74 | forgets both stacks and resets the index to 0 |
| Undo.UndoManager.Undo | src/editor/undo_manager.cpp:76-103 | the new history is UndoSteps of the old one, including the early stop on a throwing action |
| Undo.UndoManager.Redo | src/editor/undo_manager.cpp:105-132 | the new history is RedoSteps of the old one, including the early stop on a throwing action |
| Undo.UndoManager.HasUnsavedChanges | src/editor/undo_manager.cpp:134-138 | unsaved changes exist exactly when the index is positive; the constructor and ResetIndex leave none, and a stored PushAction from a non-negative index leaves some |
| Undo.PushUndoRedoUnsaved | src/editor/undo_manager.cpp:31-138 | from a saved history a stored push makes changes unsaved, undoing it returns to the saved index and redoing it makes the change unsaved again |
| Undo.FreshActionIsAlwaysStored | src/editor/undo_manager.cpp:38 | actions are uniquely owned, so the top comparison never matches a new action, and with a maximum of at least 1 every push ends on top of the stack |
| UndoStackMenu.DisplayNames | src/supertux/menu/editor_undo_stack_menu.cpp:59-65 | the display list has one name per action, the top of the stack first |
| UndoStackMenu.PageEntries | src/supertux/menu/editor_undo_stack_menu.cpp:75-79 | a page holds only selectable entries with positive ids |
| UndoStackMenu.PageListsItsSlice | src/supertux/menu/editor_undo_stack_menu.cpp:73-80 | page p lists exactly the ids (p - 1) * 10 + 1 .. min(p * 10, size), and entry k carries the name of the k-th action from the top |
| UndoStackMenu.NavigationButtons | src/supertux/menu/editor_undo_stack_menu.cpp:87-96 | "Previous page" (-1) is selectable iff the page is past the first, "Next page" (-2) iff the stack holds more than page * 10 actions |
| UndoStackMenu.EmptyStackShowsEmpty | src/supertux/menu/editor_undo_stack_menu.cpp:81-84 | an empty stack shows the inactive "Empty" line and no selectable action |
| UndoStackMenu.EditorUndoStackMenu.constructor | src/supertux/menu/editor_undo_stack_menu.cpp:28-34 | the menu opens on page 1 and builds its items, or closes itself without an undo manager |
| UndoStackMenu.EditorUndoStackMenu.RebuildMenu | src/supertux/menu/editor_undo_stack_menu.cpp:46-101 | without an undo manager the menu is emptied and popped; otherwise the items are the label, the current page of the chosen stack and the navigation, and the stack size is recorded |
| UndoStackMenu.EditorUndoStackMenu.MenuAction | src/supertux/menu/editor_undo_stack_menu.cpp:103-138 | -1 and -2 turn the page without touching the history and rebuild the menu: the items are the new page's layout of the chosen stack, the size is recorded and the menu stays open; an id outside 1..size changes nothing; an id k undoes or redoes k steps and closes the menu |
| UndoStackMenu.ReversedNames | src/supertux/menu/editor_undo_stack_menu.cpp:59-65 | inserting every name at the front produces DisplayNames |
| UndoStackMenu.ListPage | src/supertux/menu/editor_undo_stack_menu.cpp:75-79 | the page loop produces PageEntries |
| UndoStackMenu.SelectingEntryUndoesThatMany | src/supertux/menu/editor_undo_stack_menu.cpp:129-131 | choosing entry k of the undo stack removes the k most recent actions from it |
| Scrollbar.ProgressCell.constructor | src/interface/control_scrollbar.cpp:28-35 | the progress the scrollbar holds by reference starts at its owner's value |
| Scrollbar.ControlScrollbar.GetBarRect | src/interface/control_scrollbar.cpp:143-158 | the bar spans the track's width and, when the track is as tall as the covered region and the progress is in range, lies inside the track |
| Scrollbar.BarRect | src/interface/control_scrollbar.cpp:143-158 | the bar keeps the track's left and right, starts progress * covered / total below the track's top and is height * covered / total tall |
| Scrollbar.BarStaysInsideTrack | src/interface/control_scrollbar.cpp:122-158 | with a progress in [0, total - covered] and a track as tall as the covered region, the bar stays inside the track |
| Scrollbar.ControlScrollbar.constructor | src/interface/control_scrollbar.cpp:28-43 | the scrollbar shares its owner's progress, is neither scrolling nor hovered, and raises a total region smaller than the covered one to it |
| Scrollbar.ControlScrollbar.OnMouseButtonUp | src/interface/control_scrollbar.cpp:76-81 | releasing any button stops scrolling and the event is not consumed |
| Scrollbar.ControlScrollbar.OnMouseButtonDown | src/interface/control_scrollbar.cpp:83-97 | the press is consumed, and scrolling starts, exactly when it is a left press inside the bar |
| Scrollbar.ControlScrollbar.OnMouseMotion | src/interface/control_scrollbar.cpp:99-124 | records hovering and the pointer height; only while scrolling moves the progress by the scaled travel, clamped into [0, total - covered], and consumes the event |
| Scrollbar.ControlScrollbar.OnMouseWheel | src/interface/control_scrollbar.cpp:126-141 | the progress moves by wheel * speed and is clamped into [0, total - covered]; the event is always consumed |
| ButtonWidget.ButtonWidget.constructor | src/editor/button_widget.cpp:24-38 | the hit area is an unrotated square at pos whose side is the sprite's width; the button starts neither grabbed nor hovered |
| ButtonWidget.ButtonWidget.OnMouseButtonUp | src/editor/button_widget.cpp:75-104 | a release while grabbed ungrabs and is consumed, and inside the button fires the pressed button's callback (hover stays only when there is none); a release while not grabbed clears hover and is not consumed |
| ButtonWidget.ButtonWidget.OnMouseButtonDown | src/editor/button_widget.cpp:106-121 | buttons other than left and right change nothing; a press inside grabs, hovers and is consumed, a press outside clears hover |
| ButtonWidget.ButtonWidget.OnMouseMotion | src/editor/button_widget.cpp:123-138 | hover follows whether the pointer is inside; the event is consumed exactly while grabbed, and the grab does not change |
| ScriptingWidget.ScriptOptionsOf | src/editor/scripting_widget.cpp:54-64 | an object's script options come from its settings: none exactly when no setting is a script, and each one is the text and pointer of a script setting |
| ScriptingWidget.ScriptOptionsKeepOrder | src/editor/scripting_widget.cpp:57-64 | collecting commutes with concatenation, so the script options keep the settings order |
| ScriptingWidget.Collected | src/editor/scripting_widget.cpp:41-67 | every collected entry is a listed object paired with its non-empty script options |
| ScriptingWidget.ScriptedObjectIsCollected | src/editor/scripting_widget.cpp:41-67 | every object that has a script option is collected |
| ScriptingWidget.LexLessIrreflexive | src/editor/scripting_widget.cpp:82-84 | std::string's operator< is irreflexive |
| ScriptingWidget.LexLessTransitive | src/editor/scripting_widget.cpp:82-84 | std::string's operator< is transitive |
| ScriptingWidget.LexLessTotal | src/editor/scripting_widget.cpp:82-84 | of two different strings one is less than the other |
| ScriptingWidget.BeforeIrreflexive | src/editor/scripting_widget.cpp:76-85 | the sort comparator is irreflexive |
| ScriptingWidget.BeforeTransitive | src/editor/scripting_widget.cpp:76-85 | the sort comparator is transitive, so std::sort may use it |
| ScriptingWidget.BeforeIncomparableMeansSameKeys | src/editor/scripting_widget.cpp:76-85 | two objects the comparator cannot order agree on singleton, class name and name |
| ScriptingWidget.SortedOrder | src/editor/scripting_widget.cpp:73-85 | in the sorted list singletons come first, then class names ascend, then names ascend |
| ScriptingWidget.SortedEntries | src/editor/scripting_widget.cpp:75-85 | std::sort yields a permutation of the list that the comparator accepts |
| ScriptingWidget.SurvivingMembers | src/editor/scripting_widget.cpp:189-197 | removal keeps exactly the entries whose object is still valid |
| ScriptingWidget.SurvivingShrinks | src/editor/scripting_widget.cpp:188-197 | the list is unchanged when no object was deleted and shrinks when one was |
| ScriptingWidget.SurvivingKeepsOrder | src/editor/scripting_widget.cpp:189 | std::remove_if keeps the relative order of the remaining entries |
| ScriptingWidget.RemoveInvalid | src/editor/scripting_widget.cpp:188-197 | the loop keeps Surviving and sets the flag exactly when some entry's object was deleted |
| ScriptingWidget.LabelOf | src/editor/scripting_widget.cpp:101-106 | the label of row i is a zero-width rect at x = 20 on that row |
| ScriptingWidget.ButtonOf | src/editor/scripting_widget.cpp:108-125 | the k-th button of a row is on that row, LABEL_HEIGHT tall, as wide as the row's shared width, and edits the k-th option of that object |
| ScriptingWidget.RowButtons | src/editor/scripting_widget.cpp:114-125 | a row holds one button per script option, in option order |
| ScriptingWidget.Labels | src/editor/scripting_widget.cpp:97-106 | there is one label per entry, in list order |
| ScriptingWidget.OneButtonPerOption | src/editor/scripting_widget.cpp:97-128 | the controls hold exactly one button per script option of the listed objects |
| ScriptingWidget.ButtonsOfRow | src/editor/scripting_widget.cpp:97-128 | the buttons of row i follow those of the rows above it, in option order |
| ScriptingWidget.RowSpacing | src/editor/scripting_widget.cpp:96-127 | the first row is 20 below the widget's top and each next row is 2 * LABEL_HEIGHT lower |
| ScriptingWidget.EditorScriptingWidget.constructor | src/editor/scripting_widget.cpp:18-29 | a new widget is collapsed, scrolled to 0 and lists nothing |
| ScriptingWidget.EditorScriptingWidget.InsertObject | src/editor/scripting_widget.cpp:48-68 | appends the object with its script options, unless it has none, and changes nothing else |
| ScriptingWidget.EditorScriptingWidget.SortObjects | src/editor/scripting_widget.cpp:70-86 | the list becomes a sorted permutation of itself |
| ScriptingWidget.EditorScriptingWidget.InitializeControls | src/editor/scripting_widget.cpp:88-134 | rebuilds the labels, the buttons and a fresh scrollbar over the full height with the track at the right edge |
| ScriptingWidget.EditorScriptingWidget.Setup | src/editor/scripting_widget.cpp:31-46 | resets to a collapsed half-screen panel scrolled to 0 listing a sorted permutation of the sector's scripted objects, laid out |
| ScriptingWidget.EditorScriptingWidget.Update | src/editor/scripting_widget.cpp:185-204 | drops deleted objects; only when one was dropped is the list re-sorted and laid out again, otherwise nothing changes |
| ScriptingWidget.EditorScriptingWidget.AddObject | src/editor/scripting_widget.cpp:237-243 | inserts the object, re-sorts and lays out again |
| ScriptingWidget.EditorScriptingWidget.Show | src/editor/scripting_widget.cpp:144-148 | show expands the panel and changes nothing else |
| ScriptingWidget.EditorScriptingWidget.Hide | src/editor/scripting_widget.cpp:150-154 | hide collapses the panel and changes nothing else |
| ScriptingWidget.LayOut | src/editor/scripting_widget.cpp:95-128 | the loop produces Labels and Buttons and leaves top below the last row |
| ScriptingWidget.LayOutRow | src/editor/scripting_widget.cpp:108-125 | the inner loop produces RowButtons, left to right from the label's right + 20 |
| ScriptingWidget.CollectScriptOptions | src/editor/scripting_widget.cpp:54-64 | the settings loop produces ScriptOptionsOf |
| GameConfig.Capped | src/supertux/menu/random_seed_menu.cpp:47-48 | trimming keeps the newest min(size, limit) seeds in order, and leaves a short history as it is |
| GameConfig.RecordedSeedIsNewest | src/supertux/menu/random_seed_menu.cpp:46-48 | after recording, the history holds min(old size + 1, 100) seeds, ends with the new seed and keeps the newest older ones in order |
| GameConfig.Config.RecordSeed | src/supertux/menu/seed_finder_menu.cpp:221-223 | push_back followed by the erase loop leaves Capped(old history + [seed], 100) and changes no other setting |
| SeedFinder.NewRandomization | src/supertux/seed_finder.cpp:35-53 | a new randomization has no drawn value, compares for equality, is no pilot timeframe and holds the desired value when one is given |
| SeedFinder.ValueMatchWindow | src/supertux/seed_finder.cpp:156-172 | about SeedFinder.HasValueMatch, the model of has_value_match: no drawn value never matches; equality matches desired values strictly within precision of the value; less-than and more-than include the bound; an unknown comparison never matches |
| SeedFinder.HasMatch | src/supertux/seed_finder.cpp:142-154 | a randomization without desired values accepts any draw; otherwise it matches iff some desired value matches |
| SeedFinder.Prepared | src/supertux/seed_finder.cpp:292-305 | preparation clears the drawn value and sets only the temp time |
| SeedFinder.PreparedAll | src/supertux/seed_finder.cpp:291-306 | every randomization is prepared, in list order |
| SeedFinder.CarriedTimeIsLatestExplicit | src/supertux/seed_finder.cpp:296-304 | a randomization without a time of its own inherits the latest explicit time before it |
| SeedFinder.NoExplicitTimeMeansZero | src/supertux/seed_finder.cpp:291-299 | without an explicit time before it, a randomization is searched at time 0 |
| SeedFinder.StableSortByTime | src/supertux/seed_finder.cpp:308-312 | std::stable_sort gives a permutation ascending in temp time in which randomizations sharing a time keep their order |
| SeedFinder.RandomizationLog.LogRandomization | src/supertux/seed_finder.hpp:100 | log_randomization appends to the static log |
| SeedFinder.ImportCount | src/supertux/seed_finder.cpp:196-200 | an import takes the entries up to and including the selected one, or all of them when it names none |
| SeedFinder.SeedFinder.constructor | src/supertux/seed_finder.cpp:177-189 | a new finder holds one integer randomization over [0, 1], searches 5 seconds on 2 threads, has no seed and reports OK |
| SeedFinder.SeedFinder.GetStatus | src/supertux/seed_finder.cpp:440-451 | in progress wins; otherwise a positive seed is found, -1 is a time-out and anything else is OK |
| SeedFinder.SeedFinder.AddRandomization | src/supertux/seed_finder.hpp:115 | appends the randomization and changes nothing else |
| SeedFinder.SeedFinder.ImportLoggedRandomizations | src/supertux/seed_finder.cpp:191-203 | moves the first ImportCount log entries to the end of the list and clears the log; an empty log changes nothing |
| SeedFinder.SeedFinder.FindSeed | src/supertux/seed_finder.cpp:280-321 | a running search or fewer than one thread changes nothing; otherwise the list becomes the stable time-sort of the prepared list, the timer starts at search time - 1, the threads start and the status is in progress |
| SeedFinder.SeedFinder.SeedFound | src/supertux/seed_finder.cpp:416-418 | a found seed is recorded, the timer stops and the search ends, so a positive seed reports found |
| SeedFinder.SeedFinder.Update | src/supertux/seed_finder.cpp:423-438 | an expired timer during a search sets seed -1 and ends it (timed out); once no search runs the threads are let go |
| SeedFinder.PrepareRandomizations | src/supertux/seed_finder.cpp:291-306 | the loop carrying the latest time forward produces PreparedAll |
| SeedFinderMenu.DesiredValueIdRoundTrip | src/supertux/menu/seed_finder_menu.cpp:129-201 | decoding the desired-value item ID with C++'s truncating division gives back the randomization it was made for |
| SeedFinderMenu.OnlyDesiredValueItemsAreRouted | src/supertux/menu/seed_finder_menu.cpp:124-236 | header IDs are even and desired-value IDs odd, both below -10; only desired-value actions are routed to set_desired_value, no two IDs collide, and no fixed entry is routed |
| SeedFinderMenu.FirstShown | src/supertux/menu/seed_finder_menu.cpp:147-148 | at most the last ten randomizations are shown |
| SeedFinderMenu.BlocksFrom | src/supertux/menu/seed_finder_menu.cpp:148-151 | one block per randomization from the first shown one on, in order, showing the desired value when it has one |
| SeedFinderMenu.WithoutBlock | src/supertux/menu/seed_finder_menu.cpp:164-165 | deleting from a header ID removes exactly the block that starts there |
| SeedFinderMenu.LastHeaderId | src/supertux/menu/seed_finder_menu.cpp:124-165 | -10 - size * 2 is the header ID of the last randomization |
| SeedFinderMenu.ShowDesiredValue | src/supertux/menu/seed_finder_menu.cpp:208-210 | only the chosen randomization's block changes, to show its desired value fields |
| SeedFinderMenu.SeedFinderMenu.ImportRandomization | src/supertux/menu/seed_finder_menu.cpp:117-136 | adds the randomization's block, showing the desired value fields when it has a desired value |
| SeedFinderMenu.SeedFinderMenu.AddRandomization | src/supertux/menu/seed_finder_menu.cpp:110-115 | appends an integer randomization over [0, 1] to the finder and shows its block |
| SeedFinderMenu.SeedFinderMenu.ImportRandomizations | src/supertux/menu/seed_finder_menu.cpp:138-153 | an empty finder gets one new randomization; otherwise the last ten at most are shown, in order |
| SeedFinderMenu.SeedFinderMenu.RemoveLastRandomization | src/supertux/menu/seed_finder_menu.cpp:155-170 | unless forced, the only randomization is kept; otherwise the last one's block is deleted and the randomization dropped |
| SeedFinderMenu.SeedFinderMenu.SetDesiredValue | src/supertux/menu/seed_finder_menu.cpp:198-213 | the decoded randomization gets desired value 1 if it had none, no other changes, and its block shows the desired value fields |
| SeedFinderMenu.SeedFinderMenu.UpdateStatus | src/supertux/menu/seed_finder_menu.cpp:101-105 | a found seed adds a "Use seed" item (each time), any other status removes one if present |
| SeedFinderMenu.SeedFinderMenu.UseSeed | src/supertux/menu/seed_finder_menu.cpp:215-226 | the game is seeded with srand's result and that seed is recorded in the history capped at 100 |
| RandomSeedMenu.RandomSeedMenu.constructor | src/supertux/menu/random_seed_menu.cpp:26-38 | the seed field starts at the configured seed |
| RandomSeedMenu.RandomSeedMenu.MenuAction | src/supertux/menu/random_seed_menu.cpp:40-51 | only the OK entry (ID 1) acts: the configured seed becomes srand's result and is recorded in the history capped at 100; other settings stay |
| EditorMenu.MappingOf | src/supertux/menu/editor_menu.cpp:244-255 | every tile named on the left of a line is in the mapping |
| EditorMenu.MappingOfNamesOnly | src/supertux/menu/editor_menu.cpp:244-255 | the mapping holds only tiles named on the left of some line |
| EditorMenu.LaterLineWins | src/supertux/menu/editor_menu.cpp:254 | a tile maps to the target of the last line that names it |
| EditorMenu.Substitute | src/supertux/menu/editor_menu.cpp:271-279 | a mapped tile becomes its target; a tile the map does not hold (tiles.at throws) stays |
| EditorMenu.SubstitutionIsNotChained | src/supertux/menu/editor_menu.cpp:265-266 | with 1 -> 2 and 2 -> 3, tile 1 becomes 2 and never 3 |
| EditorMenu.ParseMapping | src/supertux/menu/editor_menu.cpp:244-255 | parsing fails with "couldn't parse" exactly when some delimiter is not "->", and otherwise yields MappingOf the lines |
| EditorMenu.ConvertTileMap | src/supertux/menu/editor_menu.cpp:267-280 | every tile of the tilemap is substituted exactly once, through the original values |
| EditorMenu.ConvertLevel | src/supertux/menu/editor_menu.cpp:232-284 | an unreadable file or a bad line is an error that leaves every tilemap untouched; otherwise every tile of every tilemap of every sector is substituted once |
| NewWorldmapMenu.MenuAction | src/supertux/menu/editor_new_worldmap_menu.cpp:47-84 | an ID of 0 or less is ignored; then an empty name, a name outside ^[A-Za-z0-9\-\_]+$ and an existing file are refused, in that order; otherwise the worldmap is created at basedir/name.stwm, each verdict in both directions |
| NewWorldmapMenu.CreatedPathIsNewAndInside | src/supertux/menu/editor_new_worldmap_menu.cpp:66-84 | a worldmap is only created at a path that did not exist, inside the world's directory, with the .stwm extension |
| NewWorldmapMenu.UpperCaseIsAccepted | src/supertux/menu/editor_new_worldmap_menu.cpp:38-58 | the pattern accepts upper-case letters although the help text asks for lower-case ones |
| NewWorldmapMenu.SeparatorIsRejected | src/supertux/menu/editor_new_worldmap_menu.cpp:58-62 | a '/' or a space makes the name invalid |
| ProfileCreateMenu.MenuAction | src/supertux/menu/profile_create_menu.cpp:47-75 | as written: an ID of 0 or less is ignored; then an empty name, a name over 20 characters and an existing bare name are refused, in that order; otherwise profiles/name is created and the profile set to the name, each verdict in both directions |
| ProfileCreateMenu.ExistingProfileIsNotDetected | src/supertux/menu/profile_create_menu.cpp:64-72 | the existence check tests the bare name, not the directory it creates, so an existing profiles/anna is not detected |
| ProfileCreateMenu.GuardedMenuAction | src/supertux/menu/profile_create_menu.cpp:47-75 | the corrected chain refuses exactly when profiles/name exists and creates only otherwise |
| ProfileCreateMenu.GuardedNeverCreatesExisting | src/supertux/menu/profile_create_menu.cpp:64-72 | the corrected chain never creates a directory that exists, and agrees with the written one on every other verdict |
| ProfileMenu.DialogOf | src/supertux/menu/profile_menu.cpp:64-93 | the two resets, and only they, open a confirmation dialog, each its own |
| ProfileMenu.Next | src/supertux/menu/profile_menu.cpp:64-93 | right after the action: adding increments the count, a selection sets the profile, and both resets leave profile and count unchanged (their effect waits for the confirmation) |
| ProfileMenu.Confirmed | src/supertux/menu/profile_menu.cpp:70-87 | a confirmed reset of the last profile (above 1) drops profile and count by one and otherwise changes nothing; a confirmed reset-all returns both to 1 |
| ProfileMenu.NextKeepsProfileInRange | src/supertux/menu/profile_menu.cpp:64-93 | every action the menu offers, and every confirmed reset, keeps the current profile between 1 and the profile count |
| ProfileMenu.ResetOnlyDropsLastProfile | src/supertux/menu/profile_menu.cpp:70-77 | a confirmed reset of a profile other than the last one, or of profile 1, leaves profile and count unchanged |
| ProfileMenu.ResetListIsStale | src/supertux/menu/profile_menu.cpp:68-94 | the menu rebuilt after a reset shows the counters before the confirmation: three profiles listed, two remaining once confirmed |
| ProfileMenu.Entries | src/supertux/menu/profile_menu.cpp:36-47 | one entry per profile 1..count in order, exactly the current one bracketed; none for a count below 1 |
| ProfileMenu.MarkedEntry | src/supertux/menu/profile_menu.cpp:36-47 | some entry is marked if and only if the profile lies in 1..count, and never two |
| ProfileMenu.ProfileMenu.constructor | src/supertux/menu/profile_menu.cpp:32-57 | the menu lists the configuration's profiles with the current one marked |
| ProfileMenu.ProfileMenu.MenuAction | src/supertux/menu/profile_menu.cpp:61-95 | returns the dialog the action opens; the counters become Next of the old ones (unchanged for the resets), the seeds are untouched, the list is rebuilt from the counters as they stand, and an offered action keeps the profile in range |
| ProfileMenu.ProfileMenu.ConfirmResetCallback | src/supertux/menu/profile_menu.cpp:70-87 | the confirmation callback sets the counters to Confirmed of the old ones and leaves the seeds and the menu list alone |
| Level.Zeros | src/level.cpp:175-193 | n cells, every one 0 |
| Level.Resize | src/level.cpp:597-602 | std::vector::resize(n, 0): exactly n cells, the old prefix kept, new cells 0 |
| Level.ResizeRows | src/level.cpp:381-386 | every row resized, the number of rows kept |
| Level.ResizeProperties | src/level.cpp:597-602 | resizing to the current length is the identity; resizing to n then to m <= n equals resizing to m |
| Level.SmallNegativeCoordinatesMapToCellZero | src/level.cpp:610-611 | the truncating cast and division send every pixel coordinate in (-32, 32) to cell 0 |
| Level.CellOfNonNegative | src/level.cpp:610-611 | a non-negative pixel coordinate lies in the 32-pixel span of its cell |
| Level.TileAtAsWritten | src/level.cpp:683-690 | as written: 0 outside the guard; inside it the cell, or an out-of-bounds read exactly when the column reaches past the row |
| Level.TileAt | src/level.cpp:683-690 | corrected: 0 outside the 15 rows and the width, the interactive cell inside |
| Level.ColumnAtWidthIsOutOfBounds | src/level.cpp:592-605 | after change_size every row is exactly width long, so the as-written guard lets column == width read past the row |
| Level.TileAtAgreesInsideWidth | src/level.cpp:683-690 | the written and corrected reads agree on every column except the width itself |
| Level.SetCell | src/level.cpp:613-627 | exactly one cell takes the new value; every other cell and every row length is kept |
| Level.DivModUnique | src/level.cpp:390-406 | the row-major position k = y * w + x with 0 <= x < w determines row and column |
| Level.CellIndexBelowGrid | src/level.cpp:390-406 | a cell of the 15 rows and the first width columns has a row-major index below 15 * width |
| Level.FillPlacesValue | src/level.cpp:390-406 | the k-th value of a tile list lands at row k div width, column k mod width, as an unsigned value |
| Level.FillDropsOverflow | src/level.cpp:392-398 | values past the 15th row leave no trace in the rows |
| Level.FilledStep | src/level.cpp:390-406 | one more value of the list fills exactly one more cell |
| Level.FillRows | src/level.cpp:388-442 | the fill loop with its wrapping column counter and stopping row counter produces the row-major placement of the list |
| Level.FillResized | src/level.cpp:381-442 | the rows are resized to width + 1 cells and then hold the row-major placement of the list |
| Level.ConvertCell | src/level.cpp:356-371 | a badguy character becomes 0; a character in the table becomes its tile ID; anything else is kept |
| Level.ConvertedCellIsNoBadGuy | src/level.cpp:314-371 | no converted cell is a badguy character, since the table yields none and badguy cells become 0 |
| Level.RowLength | src/level.cpp:372-377 | the column counter wraps at a length of at least 1 |
| Level.BadGuysOf | src/level.cpp:356-378 | at most one badguy per cell of the old tile list |
| Level.OneBadGuyPerCell | src/level.cpp:356-364 | exactly one badguy per '0', '1' or '2' cell, each of kind 0 to 2 and not staying on platforms |
| Level.ConvertVersion0 | src/level.cpp:354-379 | in place, every cell becomes its converted value and the badguys returned are those of the old cells, at 32 times their column and row |
| Level.Level.constructor | src/level.cpp:128-193 | init_defaults: width 21, 15 rows of 22 zero cells in each layer (so column == width is a real cell), no badguys or reset points, the default names |
| Level.Level.LoadTiles | src/level.cpp:207-445 | a version-0 list is converted in place and its badguys appended; the width is set; each layer holds its list's row-major placement; nothing else changes |
| Level.Level.FillLayers | src/level.cpp:381-442 | the width is set and each layer's rows hold the row-major placement of its list after resizing to width + 1 |
| Level.Level.ChangeSize | src/level.cpp:592-605 | the width becomes the request, raised to at least 21, and every row of every layer is resized to it |
| Level.Level.Change | src/level.cpp:608-628 | as written: with row 0..14 and column 0..width the selected layer's cell takes the value and nothing else changes; a column past the row (column == width after change_size) is reported as an overrun and nothing is written; on width + 1 rows no overrun happens |
| Level.Level.GetTileId | src/level.cpp:665-680 | as written: the tile get_tile_at gives for the cell under the pixel, always a real cell on width + 1 rows |
| Level.Level.GetTileAt | src/level.cpp:682-690 | as written: 0 outside column 0..width and row 0..14, the interactive cell inside, and an out-of-row read exactly when the column is past the row; never on width + 1 rows |
| Level.Level.Cleanup | src/level.cpp:540-557 | every row, the reset points and the badguys are emptied, the names cleared, the width kept |
| Level.ChangeThenRead | src/level.cpp:608-690 | corrected guard: reading a cell after change returns what was written there and what was there before elsewhere |
| Level.ChangeThenReadAsWritten | src/level.cpp:608-690 | as-written guard: a write inside its row is read back, and every other cell reads as before |
| Level.NewLevelUsesColumnAtWidth | src/level.cpp:175-192 | on a new level column 21 is a real cell: change at column 21 is read back by get_tile_at |
| Level.PrefixFitsIn | src/level.cpp:103-111 | if level files 1..n all exist there are at least n of them |
| Level.CountLevels | src/level.cpp:101-112 | the count is n such that levels 1..n exist and level n + 1 does not |
| Tiles.NewTile | src/tile.cpp:86-137 | a tile takes its entry's id; absent keys give non-solid, no flags, data 0, next tile 0 and speed 25; each image name is prefixed with the tileset directory |
| Tiles.Prefixed | src/tile.cpp:117-137 | each image name, in order, with images/tilesets/ in front |
| Tiles.StoreTile | src/tile.cpp:139-142 | the table grows with empty slots to index + 1 when shorter, the slot holds the tile, and every other slot is kept |
| Tiles.PropertiesOffsetsLaterTiles | src/tile.cpp:139-170 | a properties entry offsets the tiles after it by 1000 times its id and leaves the tiles before it alone |
| Tiles.PropertiesWithoutIdScalesOffset | src/tile.cpp:164-170 | a properties entry without an id multiplies the current offset by 1000 once more |
| Tiles.LoadForgetsEarlierTiles | src/tile.cpp:62-71 | loading a new file clears the table first, so an include discards the tiles its includer already read |
| Tiles.FailedLoadEmptiesTable | src/tile.cpp:71-182 | a missing file or a wrong root leaves an empty table and the current file unchanged |
| Tiles.LaterTileWins | src/tile.cpp:139-142 | a later tile with the same index replaces the earlier one |
| Tiles.TileManager.constructor | src/tile.cpp:50-53 | the manager holds what loading images/tilesets/supertux.stgt into an empty state gives |
| Tiles.TileManager.LoadTileset | src/tile.cpp:62-183 | the loop over the entries produces the state Load specifies; the current file again changes nothing; a failed load empties the table |
| Tiles.DrawnImage | src/tile.cpp:186-207 | nothing is drawn exactly for tile 0, a missing tile or a tile without images; a single image draws image 0; an animated tile draws an image index below the image count, and divides by zero exactly when its anim-speed is 0 |
| Tiles.DefaultSpeedCyclesEveryFrame | src/tile.cpp:193-196 | at speed 25 the drawn image is the frame counter modulo the image count |
| SpriteManager.Registered | src/sprite_manager.cpp:51-79 | registering never loses a name already present |
| SpriteManager.LastDuplicateWins | src/sprite_manager.cpp:54-68 | a sprite is registered under its name unless a later entry of the same name replaces it |
| SpriteManager.KeptUnlessRenamed | src/sprite_manager.cpp:54-68 | a registered sprite survives every entry that does not name it |
| SpriteManager.OnlySpritesRegister | src/sprite_manager.cpp:54-73 | every newly registered name comes from a sprite entry; other tags register nothing |
| SpriteManager.SpriteManager.constructor | src/sprite_manager.cpp:25-28 | the registry holds the sprites of the file, or nothing when it cannot be read |
| SpriteManager.SpriteManager.LoadResfile | src/sprite_manager.cpp:38-80 | a missing file or a wrong root changes nothing; otherwise the loop registers the entries as Registered specifies, stopping at a sprite that fails to build |
| SpriteManager.SpriteManager.Load | src/sprite_manager.cpp:82-95 | a sprite exactly when its name is registered, and then the registered one |
| Addons.TypeFromString | src/addon/addon.cpp:37-67 | exactly the six type names are accepted; anything else is an invalid-type error naming the string |
| Addons.TypeToString | src/addon/addon.cpp:69-91 | every type writes one of the six names |
| Addons.TypeRoundTrip | src/addon/addon.cpp:37-91 | writing a type and reading it back gives the type |
| Addons.TypeNameRoundTrip | src/addon/addon.cpp:37-91 | a name that reads as a type is the name that type writes |
| Addons.EmptyTypeIsInvalid | src/addon/addon.cpp:261-263 | a description without a type reads "" and is refused |
| Addons.Find | src/addon/addon.cpp:215 | the first entry with the key, or none exactly when no entry has it |
| Addons.FindFrom | src/addon/addon.cpp:215 | the first entry with the key at or after a position no earlier entry has |
| Addons.GetText | src/addon/addon.cpp:215-272 | absent keys read as nothing, a text is read from the first entry with the key, another kind of value is an error |
| Addons.GetNumber | src/addon/addon.cpp:240-246 | absent keys read as nothing, a number is read from the first entry with the key, another kind of value is an error |
| Addons.GetMapping | src/addon/addon.cpp:234-296 | absent keys read as nothing, a nested mapping is read from the first entry with the key, another kind of value is an error |
| Addons.CheckId | src/addon/addon.cpp:215-228 | accepted exactly when the id is present, non-empty and made of -_0-9A-Za-z; a missing id is reported exactly when there is none |
| Addons.NatString | src/addon/addon.cpp:251 | decimal digits without a leading zero |
| Addons.DecimalString | src/addon/addon.cpp:251 | std::to_string: a leading '-' exactly for negative numbers |
| Addons.NatStringValue | src/addon/addon.cpp:251 | the digits written denote the number again |
| Addons.DecimalStringInjective | src/addon/addon.cpp:251 | distinct legacy versions give distinct commits |
| Addons.LegacyVersion | src/addon/addon.cpp:244-254 | an integer version n becomes commit n, title "v" + n, no description, created at 0 |
| Addons.VersionFields | src/addon/addon.cpp:235-241 | a version mapping is accepted exactly when each of its four fields is absent or of the right kind |
| Addons.ParseVersion | src/addon/addon.cpp:230-259 | no version field is an error; an integer field reads as the legacy version; a text field is refused |
| Addons.TextList | src/addon/addon.cpp:280-330 | a list of screenshot files or dependency ids is accepted exactly when every entry is a text under the list's key ("file" or "dependency"), and then gives those texts in order |
| Addons.ParseScreenshots | src/addon/addon.cpp:274-293 | no screenshots mapping leaves no base URL and no files |
| Addons.IdsOf | src/addon/addon.cpp:307-444 | the ids of the add-ons, in order |
| Addons.DependencyList | src/addon/addon.cpp:296-317 | one add-on per entry, each with a valid id, and the id list is their ids |
| Addons.Dependency | src/addon/addon.cpp:299-316 | another key is an invalid field; a dependency is accepted only as a whole accepted add-on description, any failure of it reported as a bad dependency |
| Addons.ParseDependencies | src/addon/addon.cpp:295-331 | "dependencies" wins over "dependency-ids"; the latter gives ids and no add-ons; neither gives nothing |
| Addons.ReadTexts | src/addon/addon.cpp:264-272 | accepted exactly when each of the eight optional texts is absent or a text |
| Addons.ParseAddon | src/addon/addon.cpp:193-338 | an accepted add-on has a valid id read from the mapping, the mapping's version and type, valid dependency ids, and starts not installed and disabled; an id failure or a missing version is the error |
| Addons.ParseDocument | src/addon/addon.cpp:149-191 | a root other than supertux-addoninfo is refused; otherwise the mapping decides |
| Addons.EmptyIdIsRejected | src/addon/addon.cpp:220-223 | an empty id is refused whatever else the description holds |
| Addons.IllegalCharacterIsRejected | src/addon/addon.cpp:225-228 | an id with a character outside -_0-9A-Za-z is refused |
| Addons.LegacyVersionIsRead | src/addon/addon.cpp:244-254 | an accepted description with an integer version n has commit n, title "v" + n, created at 0 |
| Addons.FileName | src/addon/addon.cpp:346-350 | the id followed by ".zip" |
| Addons.FileNameDeterminesId | src/addon/addon.cpp:346-350 | two add-ons share an archive name exactly when they share an id |
| Addons.KindsOfAddon | src/addon/addon.cpp:370-389 | levelsets never override data or need a restart; data overrides need a restart; a language pack is exactly the restart-only kind; a plain add-on is exactly neither |
| Addons.HasAvailableUpdate | src/addon/addon.cpp:391-398 | an update exists exactly when there is an upstream copy with another commit created strictly later |
| Addons.UpdateIsOneWay | src/addon/addon.cpp:391-398 | an add-on is never its own update, and two add-ons are never updates of each other |
| Addons.TextEntries | src/addon/addon.cpp:432-445 | one entry under the key per value, in order |
| Addons.InfoDocument | src/addon/addon.cpp:400-450 | the written description has the addoninfo root and holds no url, no md5 and no dependency add-ons |
| Addons.TextEntriesRead | src/addon/addon.cpp:280-445 | written file and dependency lists read back as the same lists |
| Addons.FindAt | src/addon/addon.cpp:215 | lookup stops at the first entry with the key |
| Addons.VersionReadBack | src/addon/addon.cpp:235-416 | a written version reads back as itself |
| Addons.ScreenshotsReadBack | src/addon/addon.cpp:274-437 | written screenshots read back as themselves |
| Addons.DependenciesReadBack | src/addon/addon.cpp:318-445 | written dependencies read back as their ids, without add-ons |
| Addons.HeaderReadBack | src/addon/addon.cpp:215-419 | the id, the version and the type read back from the written description |
| Addons.AbsentKeys | src/addon/addon.cpp:270-450 | the written description has no url and no md5 to read |
| Addons.TextsReadBack | src/addon/addon.cpp:264-426 | the written texts read back, with url and md5 empty |
| Addons.WriteThenRead | src/addon/addon.cpp:193-450 | writing an add-on with a valid id and reading it back keeps everything but the url, the md5, the dependency add-ons (only their ids come back) and the manager's fields |
| Addons.ListedIdsAreLost | src/addon/addon.cpp:318-445 | an add-on read from "dependency-ids" loses those ids when written and read again, since only dependency add-ons are written |
| Addons.PrependTextsLaws | src/addon/addon.cpp:283-290 | the accumulating list of the loops is an associative prefix |
| Addons.DependencyListStep | src/addon/addon.cpp:299-316 | the k-th dependency's outcome goes in front of the rest's, or is the error |
| Addons.PrependEmpty | src/addon/addon.cpp:299-316 | an empty prefix changes nothing; a prefix before an empty rest is the prefix |
| Addons.PrependTwice | src/addon/addon.cpp:299-316 | prefixing twice is prefixing the concatenation |
| Addons.ReadTextList | src/addon/addon.cpp:280-330 | the screenshot-files loop and the dependency-ids loop give exactly the list TextList specifies, or its error |
| Addons.NewAddon | src/addon/addon.cpp:193-338 | the constructor, field by field with its loops, gives exactly the add-on or error ParseAddon specifies |
| Addons.ReadDependencies | src/addon/addon.cpp:295-331 | the dependency loops give exactly what ParseDependencies specifies |
| Addons.ReadDependency | src/addon/addon.cpp:299-316 | one dependency entry read by the constructor itself gives what Dependency specifies |
| Addons.ReadDependencyList | src/addon/addon.cpp:296-317 | the dependencies loop gives what DependencyList specifies |
| AddonIndex.AddonOf | src/addon/addon_index.cpp:102-112 | an entry contributes an add-on exactly when it is an add-on entry whose description is accepted, and then that add-on |
| AddonIndex.Collected | src/addon/addon_index.cpp:92-115 | at most one add-on per entry |
| AddonIndex.NoTextKeepsDefault | src/addon/addon_index.cpp:86-99 | without a page link entry the link stays empty |
| AddonIndex.LastTextWins | src/addon/addon_index.cpp:96-99 | the last page link entry gives the link |
| AddonIndex.NoNumberKeepsDefault | src/addon/addon_index.cpp:86-101 | without a total-pages entry the count stays 0 |
| AddonIndex.LastNumberWins | src/addon/addon_index.cpp:100-101 | the last total-pages entry gives the count |
| AddonIndex.FirstUnknown | src/addon/addon_index.cpp:92-115 | the first entry the constructor refuses, every entry before it accepted; none exactly when all are accepted |
| AddonIndex.IndexOf | src/addon/addon_index.cpp:27-116 | a wrong root is refused; the index is accepted exactly when the root is supertux-addons and every entry is a page field of the right kind or an add-on entry |
| AddonIndex.CollectedAppend | src/addon/addon_index.cpp:102-112 | the add-ons keep the order of their entries |
| AddonIndex.CollectedMembers | src/addon/addon_index.cpp:102-112 | every accepted add-on entry is listed and every listed add-on comes from an entry |
| AddonIndex.ParseIndex | src/addon/addon_index.cpp:86-116 | the constructor's loop gives exactly the index or error IndexOf specifies, skipping add-ons that fail to parse |
| AddonIndex.FirstUnknownSkips | src/addon/addon_index.cpp:92-115 | the search for a refused entry passes over accepted ones |
| AddonIndex.FirstStop | src/addon/addon_index.cpp:63-75 | the first add-on entry that throws or has the wanted id; none exactly when there is no such entry |
| AddonIndex.FindAddon | src/addon/addon_index.cpp:50-84 | a wrong root is refused; an add-on found has the wanted id; null only when no add-on entry has that id |
| AddonIndex.FoundAddonIsFirst | src/addon/addon_index.cpp:63-75 | the add-on found is read from the first add-on entry with the wanted id |
| AddonIndex.FoundAddonIsListed | src/addon/addon_index.cpp:50-116 | an add-on parse_addon finds in an accepted index is one the whole index lists |
| AddonManager.BelowIrreflexive | src/addon/addon_manager.cpp:99-104 | no title sorts before itself under std::string's operator< |
| AddonManager.BelowTransitive | src/addon/addon_manager.cpp:99-104 | the title order is transitive |
| AddonManager.BelowTotal | src/addon/addon_manager.cpp:99-104 | of two distinct titles one sorts before the other |
| AddonManager.InsertTitleSpec | src/addon/addon_manager.cpp:103 | std::map::insert keeps the titles ascending and adds the pair exactly when its title is new |
| AddonManager.ByTitleStep | src/addon/addon_manager.cpp:101-104 | each visited add-on inserts one more pair into the title map |
| AddonManager.FirstWithTitle | src/addon/addon_manager.cpp:101-104 | the first pair with the title, none exactly when no pair has it |
| AddonManager.ByTitleSpec | src/addon/addon_manager.cpp:97-114 | the title map is strictly ascending and holds, for each title, the first pair inserted with it |
| AddonManager.PairOrigin | src/addon/addon_manager.cpp:101-104 | each pair of the title map is the first one inserted with its title |
| AddonManager.TitleCovered | src/addon/addon_manager.cpp:101-104 | every inserted title is in the title map |
| AddonManager.Ids | src/addon/addon_manager.cpp:105-113 | the ids of the pairs, in their order |
| AddonManager.TitledIds | src/addon/addon_manager.cpp:101-104 | each installed add-on's title paired with its id, in iteration order |
| AddonManager.ListedIdsComeFirst | src/addon/addon_manager.cpp:97-114 | every listed id is installed and is the first in iteration order with its title |
| AddonManager.ListedTitlesAscend | src/addon/addon_manager.cpp:97-114 | the listed add-ons go by strictly ascending title, so no title is listed twice |
| AddonManager.EveryTitleListed | src/addon/addon_manager.cpp:97-114 | every title among the installed add-ons is listed |
| AddonManager.DependingIdsMembers | src/addon/addon_manager.cpp:610-621 | the depending ids are exactly the installed ids whose add-on lists the id among its dependency ids |
| AddonManager.Enabled | src/addon/addon_manager.cpp:515-562 | enabling succeeds exactly for an installed, disabled add-on that is not a second resource pack and is either a resource pack after initialisation or mounts; then only its flag changes; each refusal has its own error |
| AddonManager.Disabled | src/addon/addon_manager.cpp:564-599 | disabling succeeds exactly for an installed, enabled add-on that is a resource pack or unmounts; then only its flag changes |
| AddonManager.EnableKeepsOnePack | src/addon/addon_manager.cpp:524-536 | enabling never leaves two resource packs enabled |
| AddonManager.DisableKeepsOnePack | src/addon/addon_manager.cpp:564-599 | disabling keeps at most one resource pack enabled |
| AddonManager.DisableUndoesEnable | src/addon/addon_manager.cpp:515-599 | disabling an add-on just enabled succeeds exactly when it is a resource pack or unmounts, and then restores the add-ons as they were |
| AddonManager.FromConfig | src/addon/addon_manager.cpp:163-177 | enabling the configuration's add-ons, skipping failures, installs nothing and removes nothing |
| AddonManager.ConfigKeepsOnePack | src/addon/addon_manager.cpp:163-177 | starting from the configuration keeps at most one resource pack enabled |
| AddonManager.Lower | src/addon/addon_manager.cpp:640 | StringUtil::tolower: the same length, each ASCII capital lowered |
| AddonManager.ArchivesMembers | src/addon/addon_manager.cpp:623-649 | a path is listed exactly when a kept directory entry has it as its full path |
| AddonManager.CacheIsNeverAnArchive | src/addon/addon_manager.cpp:631-637 | the cache directory inside the add-on directory is never listed as an archive |
| AddonManager.ScanExamples | src/addon/addon_manager.cpp:631-645 | an upper-case .ZIP file is kept; dot directories and missing files are not |
| AddonManager.AddonManager.constructor | src/addon/addon_manager.cpp:140-196 | the cache sits in the add-on directory; the found add-ons are installed and the configuration's enabled ones enabled in order, failures skipped; the manager ends initialised |
| AddonManager.AddonManager.GetInstalledAddon | src/addon/addon_manager.cpp:87-95 | the installed add-on with the id, or a not-installed error exactly when there is none |
| AddonManager.AddonManager.IsAddonInstalled | src/addon/addon_manager.cpp:601-608 | true exactly when the id is installed |
| AddonManager.AddonManager.InstalledIffFound | src/addon/addon_manager.cpp:601-608 | is_addon_installed holds exactly when get_installed_addon finds the add-on |
| AddonManager.AddonManager.GetInstalledAddons | src/addon/addon_manager.cpp:97-114 | the installed ids, one per title in ascending title order, as the title map specifies |
| AddonManager.AddonManager.GetDependingAddons | src/addon/addon_manager.cpp:610-621 | the installed ids in iteration order that list the id as a dependency, and exactly those |
| AddonManager.AddonManager.EnableAddon | src/addon/addon_manager.cpp:515-562 | the installed add-ons become what Enabled gives, or stay and the error is Enabled's |
| AddonManager.AddonManager.DisableAddon | src/addon/addon_manager.cpp:564-599 | the installed add-ons become what Disabled gives, or stay and the error is Disabled's |
| AddonManager.AddonManager.ScanForArchives | src/addon/addon_manager.cpp:623-649 | the full paths of the kept entries, in enumeration order |
| Directions.Opposite | src/badguy/zeekling.cpp:177 | the other direction, never the same one |
| Zeekling.BumpedHorizontally | src/badguy/zeekling.cpp:169-195 | frozen, only the horizontal speed stops; otherwise the Zeekling faces the other way and cruises that way, and a dive becomes flight |
| Zeekling.BumpedVertically | src/badguy/zeekling.cpp:197-217 | frozen or burning, it stops; otherwise facing and horizontal speed are kept, it climbs at its speed exactly when it was diving, and flying or a finished climb has no vertical speed |
| Zeekling.TurningTwiceRestores | src/badguy/zeekling.cpp:169-195 | two walls in a row leave a cruising Zeekling facing and moving as before |
| Zeekling.DiveClimbFly | src/badguy/zeekling.cpp:197-217 | a dive that hits below climbs, and the next vertical bump ends the climb in level flight with facing and horizontal speed kept |
| Zeekling.Remembered | src/badguy/zeekling.cpp:285-292 | remembering the player never decides a dive |
| Zeekling.DiveDecision | src/badguy/zeekling.cpp:238-293 | about Zeekling.DiveChecked, the model of should_we_dive: the Zeekling dives exactly when not frozen, tracking the same player as before, that player is below by at most 512, the dive descends faster than the player falls, and the predicted gap is under 8 |
| Zeekling.MemoryRefreshedAtEndOnly | src/badguy/zeekling.cpp:244-292 | the tracked player and remembered positions are refreshed exactly when no early return is taken |
| Zeekling.Updated | src/badguy/zeekling.cpp:295-319 | facing and horizontal speed are kept; a dive starts only from flight when should_we_dive says so and otherwise goes on; a climb ends in flight exactly at or above the starting height |
| Zeekling.DiveIsTwiceAsFast | src/badguy/zeekling.cpp:297-302 | a cruising Zeekling dives at twice its speed |
| Zeekling.Zeekling.constructor | src/badguy/zeekling.cpp:53-66 | flying, facing the given way, at a drawn speed from 130 to 170 that draws no editor warning, without gravity and tracking nobody |
| Zeekling.Zeekling.AfterEditorSet | src/badguy/zeekling.cpp:83-90 | a warning exactly when the speed lies outside [130, 171] |
| Zeekling.Zeekling.Initialize | src/badguy/zeekling.cpp:135-140 | cruising at its speed in the direction it faces with the matching sprite action; nothing else changes |
| Zeekling.Zeekling.OnBumpHorizontal | src/badguy/zeekling.cpp:169-195 | the motion becomes BumpedHorizontally's; nothing else changes |
| Zeekling.Zeekling.OnBumpVertical | src/badguy/zeekling.cpp:197-217 | the motion becomes BumpedVertically's; nothing else changes |
| Zeekling.Zeekling.CollisionSolid | src/badguy/zeekling.cpp:219-233 | nothing while squished; a hit above or below is a vertical bump; only otherwise a side hit is a horizontal one; no hit changes nothing |
| Zeekling.Zeekling.ShouldWeDive | src/badguy/zeekling.cpp:238-293 | the decision, the prediction variables and the tracked player become DiveChecked's; the motion is untouched |
| Zeekling.Zeekling.ActiveUpdate | src/badguy/zeekling.cpp:295-319 | the motion becomes Updated's, with the dive decided by should_we_dive only while flying; the prediction memory changes only while flying |
| Zeekling.Zeekling.Freeze | src/badguy/zeekling.cpp:321-326 | frozen and under gravity; the motion is untouched |
| Zeekling.Zeekling.Unfreeze | src/badguy/zeekling.cpp:328-335 | thawed, without gravity, flying and cruising in the direction it faces |
| SkullyHop.RecoverTime | src/badguy/skullyhop.cpp:118-148 | a random draw after the fifth jump; before it, the configured time unless that is below the minimum; never below the minimum when the draw is not |
| SkullyHop.NextCounter | src/badguy/skullyhop.cpp:119-146 | the jump counter goes up by one exactly while it is at most 5, and otherwise stays |
| SkullyHop.CounterAfter | src/badguy/skullyhop.cpp:119-146 | standing never lowers the jump counter |
| SkullyHop.CounterAfterStands | src/badguy/skullyhop.cpp:37-146 | from a start of at least 1, n stands raise the counter by n up to 6, and a start of 6 or more stays |
| SkullyHop.RandomAfterFiveStands | src/badguy/skullyhop.cpp:118-148 | after five stands every recovery time is a random draw, whatever the jump times |
| SkullyHop.RecoverTimeBounds | src/badguy/skullyhop.cpp:28-148 | with jump times the editor accepts and a draw in range, recovery takes between 0.1 and 1 |
| SkullyHop.SkullyHop.FromReader | src/badguy/skullyhop.cpp:33-45 | the level-file SkullyHop counts jumps from 1 with all jump times 0 |
| SkullyHop.SkullyHop.AtPosition | src/badguy/skullyhop.cpp:47-59 | the positioned SkullyHop starts its counter at 6, so every recovery time is drawn |
| SkullyHop.SkullyHop.AfterEditorSet | src/badguy/skullyhop.cpp:80-100 | the standing sprite faces its way, and a warning is given exactly when some jump time lies outside [0, 1]; nothing else changes |
| SkullyHop.SkullyHop.Initialize | src/badguy/skullyhop.cpp:102-108 | it starts jumping, with the matching sprite; nothing else changes |
| SkullyHop.SkullyHop.SetState | src/badguy/skullyhop.cpp:110-163 | standing stops it, starts the timer with RecoverTime and advances the counter; charging only changes the sprite; jumping leaps at 220 forward and 450 up; the state is always stored |
| SkullyHop.SkullyHop.CollisionSolid | src/badguy/skullyhop.cpp:176-209 | frozen, burning or not jumping, nothing changes here; in a jump, a fall onto the floor makes it stand, a hit above stops the rise, and a side hit turns it round with a quarter of the speed bounced back |
| SkullyHop.SkullyHop.ActiveUpdate | src/badguy/skullyhop.cpp:220-240 | at most one step along standing, charging and jumping, none while frozen; a charge ends in a jump at the jump speed |
| SkullyHop.SkullyHop.Unfreeze | src/badguy/skullyhop.cpp:242-247 | thawed and jumping again as after initialisation |
| CInt.CDiv | src/level.cpp:610-611 | C++ integer division truncates toward zero: the quotient's magnitude is the magnitudes' quotient and its sign is the product of the signs |
| CInt.CRem | src/supertux/menu/seed_finder_menu.cpp:232 | C++ `%` pairs with the truncating quotient: a == (a / b) * b + a % b, the remainder is smaller than b in magnitude and takes the sign of a |
| CInt.Truncate | src/level.cpp:610-611 | the float-to-int cast rounds toward zero |
| CInt.ToUnsigned | src/level.cpp:400 | storing an int into an unsigned tile wraps it into [0, 2^32) and keeps values already in range |
| FileSystem.FindLastOf | src/file_system.cpp:153 | find_last_of yields npos exactly when the character is absent, and otherwise an index of it with no later occurrence |
| NewWorldmapMenu.WorldmapPath | src/supertux/menu/editor_new_worldmap_menu.cpp:68 | the new worldmap file is the world's base directory, '/', the name and ".stwm" |
| ProfileCreateMenu.ProfileDirectory | src/supertux/menu/profile_create_menu.cpp:70 | the created directory is the name under the "profiles/" prefix |
| Level.Filled | src/level.cpp:388-442 | filling cells from a tile list never changes the number of rows or any row's length |
| ScriptingWidget.Surviving | src/editor/scripting_widget.cpp:189-197 | removing the entries of deleted objects never lengthens the list |
| Scrollbar.ControlScrollbar.SetRect | src/editor/scripting_widget.cpp:132-133 | placing the scrollbar sets its rectangle and leaves its progress, scrolling and hover state alone |
| SeedFinder.RandomizationLog.constructor | src/supertux/seed_finder.cpp:175 | the static randomization log starts empty |
| SeedFinder.RandomizationLog.Clear | src/supertux/seed_finder.cpp:202 | clearing the log empties it |
| SeedFinderMenu.SeedFinderMenu.constructor | src/supertux/menu/seed_finder_menu.cpp:31-37 | the menu opens on the shared seed finder already refreshed: "Use seed" is offered exactly when a seed was found, and at least one randomization block is shown (the last ten, or a new default one when there were none) |
| SeedFinderMenu.SeedFinderMenu.Refresh | src/supertux/menu/seed_finder_menu.cpp:39-76 | the rebuilt menu offers "Use seed" exactly when the status is found and shows the last ten randomizations at most, adding a default one to an empty finder; the search state is untouched |
| Undo.TransferStep | src/editor/undo_manager.cpp:86-102 | moving k + 1 actions between the stacks is moving k and then one more from the top of the source |
| Undo.ReversedTwice | src/editor/undo_manager.cpp:76-132 | the redo stack holds undone actions in reverse order, and reversing twice restores the order |

## Left out

- Rotated rectangles: the rotated-rectangle solver, `math::rotate`, `get_axis` and `projections_overlap` are not modelled. Only the axis-aligned path, selected by `is_rotated`, is.
- `makePlane` normalises its normal by a square-root length. The model takes that length as a positive parameter, since only its sign and scale matter to the plane test.
- The collision tolerance `EPSILON` and the floating-point rounding of every computation are not modelled. Reals are exact, and EPSILON is a parameter.
- `assert` checks compiled out under NDEBUG are not modelled.
- The `Rectf` setters mutate a C++ value type. They are modelled as functions returning the new rectangle.
- File-system access through PhysFS (exists, mkdir, enumeration, mounting) is not modelled; its results are parameters such as sets of existing paths.
- The scripting widget's forwarding of mouse events to its scrollbar, and its resize, are not modelled.
- Every `draw` and rendering-only `update` method is not modelled.
- The editor menu is modelled only for its level-conversion entry. The rest is user-interface wiring.
- Random draws (`gameRandom`, `srand`) are parameters.
- The seed search threads are not modelled: only the `seed_found` hand-off and the status are.
- Reading and saving seed-finder files, and all menu texts, are not modelled.
- The item IDs `MNID_IMPORTLOGGED` to `MNID_STATUS` are numbered from 0, as the enum in `seed_finder_menu.hpp` declares them. The `.cpp` also uses `MNID_IMPORTRANDOMIZATIONS` and `MNID_SAVERANDOMIZATIONS`, which that header does not declare. The entries behind them (reading and saving a randomizations file) are not modelled, and neither is the menu_action switch that dispatches to them; only the desired-value routing is.
- SeedFinderMenu.WithoutBlock: `delete_until_hl_from` is modelled as removing the randomization's block of items, not item by item.
- The default arguments of the `Randomization` constructor are taken to be the reader constructor's defaults (no fixed time, no desired value, precision 0.01).
- Scrollbar.ControlScrollbar.OnMouseMotion: requires a positive covered region. The source divides by it as a float, and with a covered region of 0 the new progress is an infinity or NaN that `std::min`/`std::max` then reduce to 0 or to the total; IEEE infinities and NaN are not modelled.
- Scrollbar.ControlScrollbar.OnMouseButtonDown: a left press requires a positive total region and a non-negative covered region, as Scrollbar.BarRect does. A total of 0 makes `get_bar_rect` divide by zero into NaN edges, and a negative covered region gives a rectangle of negative height, which the `Rectf` constructor asserts against.
- Scrollbar.BarRect: requires a positive total region and a non-negative covered region, for the reasons given for OnMouseButtonDown.
- Scrollbar.ControlScrollbar.GetBarRect: requires a positive total region and a non-negative covered region, for the reasons given for OnMouseButtonDown.
- Level header fields (start position, time, gravity, colours, names) are not modelled.
- Level.Level.LoadTiles requires a width of at least 1. With width 0 the source's fill loop never wraps its column counter and writes past the one-cell rows, so that case is left out.
- Level.Level.Change: a write past the end of a row, which the as-written guard allows after `change_size`, is undefined behaviour in C++. The model reports it as `overrun` and writes nothing; GetTileAt and GetTileId return None for the matching read.
- Level saving, `load_gfx` and `load_song` are not modelled. Level loading is abstracted to the lists it reads.
- Tile ids are unbounded naturals, and tile images are paths.
- Tiles.Load: the depth of nested `(tileset ...)` includes is bounded by a fuel parameter. The source recurses without a bound.
- The tile animation frame counter is an unbounded natural. Its `size_t` modulo is modelled.
- Tile groups are a set compared by full value, not by the `std::set` ordering key.
- A sprite is its name and its action names. A sprite that fails to build is modelled as stopping the resource-file read.
- ProfileMenu.ProfileMenu.MenuAction: the selection branch of `menu_action` ends in a `break` that sits outside any loop or switch, so it is not valid C++ as written. The model reads it as ending that branch, after which the menu is rebuilt as for every other action. The confirmation dialogs themselves (their text and the player's choice) are not modelled: a reset returns the dialog, and ProfileMenu.ProfileMenu.ConfirmResetCallback is the callback the player may later trigger.
- ProfileMenu.ProfileMenu.ConfirmResetCallback: the deletion of save games (`delete_savegames`) works on files and is not modelled.
- ProfileCreateMenu.MenuAction: the source assigns the profile name (a string) to the int config field `profile`. The model records only that a profile was created, and measures the name length in characters rather than bytes.
- Reader lookups take the first entry with a key. The text the Writer produces (quoting, escaping, layout) is not modelled. The document tree write_info builds is modelled, and it reads back as Reloaded(a).
- The legacy level version and the add-on `created_at` stamp are unbounded integers, not `int`/`int64`.
- Add-on MD5 checksums, zip archives and mounting are boolean or set inputs.
- Add-on downloads (`request_download`, `request_install`, `request_check_online`), install and uninstall, screenshots and language-pack paths are not modelled.
- The iteration order of `AddonMap` is a parameter, constrained only to list each add-on once.
- `tolower` on archive extensions is ASCII case folding.
- The add-on manager's destructor, its config synchronisation, the emptying of the cache directory and the repository URL are not modelled.
- Badguy base behaviour (walking, squishing, burning, the base freeze and unfreeze) is not modelled. The badguys' own overrides and their state are.
- Zeekling: the constructor from a reader is not modelled, because its flags only affect drawing. Estimate logging and the status drawing are not modelled either.
- SkullyHop: `collision_badguy` (which only calls `collision_solid`), `collision_squished` and sounds are not modelled. The order of its state enum comes from a header that is not part of this model.
- The default sprite action is the empty name.

## Findings

| source | as written | input that shows it | evidently intended | confidence | as-written member | corrected member |
|---|---|---|---|---|---|---|
| src/level.cpp:614,674,685 | `change`, `gettileid` and `get_tile_at` accept a column `xx <= width` (`x > width` rejects) | new and loaded levels have rows of width + 1 cells, so column == width is a real cell there; but after `change_size(21)` every row holds exactly 21 cells, and reading or writing column 21 indexes past the end of the row | columns `0 <= x < width` only (or, equally, `change_size` keeping the extra column) | medium, not executed | Level.Level.Change, Level.Level.GetTileAt, Level.TileAtAsWritten, Level.ColumnAtWidthIsOutOfBounds | Level.TileAt, Level.TileAtAgreesInsideWidth, Level.ChangeThenRead |
| src/supertux/menu/profile_create_menu.cpp:64,70-71 | the existence check looks up the bare name, but the directory created is "profiles/" + name | name "anna" with "profiles/anna" already existing: the check passes and the existing profile directory is created again | the check looks at the directory that is about to be created | medium, not executed | ProfileCreateMenu.MenuAction, ProfileCreateMenu.ExistingProfileIsNotDetected | ProfileCreateMenu.GuardedMenuAction, ProfileCreateMenu.GuardedNeverCreatesExisting |
