# bank-graph core, modelled in Dafny

bank-graph reads a bank statement exported as CSV, rewrites the values of one column by pattern
rules, and groups the rows by the rewritten value. It also carries a small canvas scene graph
(xybrush): boxes laid out relative to their parents, a shared spatial index for hit-testing,
a scene that moves a pointer focus between boxes, and a text box that cuts its text into lines,
words and characters.

The project models that core:

- `wrappers.dfy`: `Option` and `Result`, for JavaScript's `undefined` and for thrown errors.
- `strings.dfy`: the JavaScript string operations the core relies on. These are
  `split('\n')`, `split(/\b/)`, `trim()`, and the decimal text of an integer in a template literal.
- `ordering.dfy`: code-point string order, a stable insertion sort by a string key (the
  comparator sort of the scene), and `reverse`.
- `rectangle.dfy` and `style.dfy`: the `Rectangle` and `Style` values.
- `box.dfy`: every box lives in one arena, the class `Boxes`.
  - A box's fields are a `BoxState` value.
  - Its `_globalBounds` cache is a sequence beside the boxes.
  - The shared `Box.tree` index is a sequence of (box, rectangle) entries.
  - Parent links carry a ghost rank that makes the tree acyclic.
  - The invariant is that every cached rectangle equals the bounds computed from scratch along
    the ancestor chain.
- `scene.dfy`: index search, the ordering of hits by the `${depth}-${index}` key, the
  pointer handlers, and the focus state machine as the events it sends to boxes.
- `textbox.dfy`: the three passes of `layout` (split, wrap, measure), the `height` getter and
  `getSelectedObjects`. Text metrics are a function parameter `measure`.
- `aggregator.dfy`: the insertion-ordered map from keys to row groups. It is a class whose
  fields are the key order and the groups, explained by a ghost history of every `addRecord`.
- `csv.dfy`: the `CSV` class.
  - Its replacer and converter maps are sequences of (pattern, value) entries in insertion order.
  - A pattern is an object, so that rules are keyed by identity as a `Map<RegExp, string>` is.
  - Regular-expression matching and substitution are function parameters.

## Model

| member | source | states |
|---|---|---|
| Strings.SplitOn | src/xybrush/textbox.ts:133 | `split` on a character gives at least one piece and no piece holds the separator |
| Strings.JoinSplitOn | src/xybrush/textbox.ts:133 | joining the pieces with the separator gives the text back |
| Strings.SplitOnCount | src/xybrush/textbox.ts:133 | there is one piece more than there are separators |
| Strings.SplitAtBoundaries | src/xybrush/textbox.ts:147 | `split(/\b/)`: the pieces concatenate to the text, are non-empty and all-word or all-non-word, and neighbours differ in kind; the empty text gives one empty piece |
| Strings.TrimStart | src/csv.ts:151 | the result is a suffix of the text; what is cut is all white space; the result starts with a non-space |
| Strings.TrimEnd | src/csv.ts:151 | the result is a prefix of the text; what is cut is all white space; the result ends with a non-space |
| Strings.TrimSlice | src/csv.ts:151 | `trim()` is a slice of the text with only white space cut at both ends |
| Strings.TrimIdempotent | src/csv.ts:151 | trimming twice equals trimming once |
| Strings.NatToString | src/csv.ts:107 | decimal digits only, with no leading zero |
| Strings.NatToStringValue | src/csv.ts:107 | the digits written for `n` denote `n` |
| Strings.IntToString | src/xybrush/scene.ts:104-105 | the text starts with a minus sign exactly for negative numbers |
| Strings.IntToStringValue | src/xybrush/scene.ts:104-105 | the text reads back as the number: a minus sign when it is negative, then the decimal digits of its magnitude |
| Strings.IntToStringInjective | src/xybrush/scene.ts:104-105 | different integers are written differently |
| Ordering.StrLeReflexive | src/xybrush/scene.ts:107 | the key order is reflexive |
| Ordering.StrLeAntisymmetric | src/xybrush/scene.ts:107 | two keys each no greater than the other are equal |
| Ordering.StrLeTransitive | src/xybrush/scene.ts:107 | the key order is transitive |
| Ordering.StrLeTotal | src/xybrush/scene.ts:107 | any two keys compare |
| Ordering.InsertBy | src/xybrush/scene.ts:98-108 | inserting into a sorted sequence adds exactly one element and keeps it sorted |
| Ordering.SortBy | src/xybrush/scene.ts:98-108 | the sort result is a permutation of its input, sorted by key |
| Ordering.InsertByWithKey | src/xybrush/scene.ts:98-108 | an inserted element goes before every element of its own key |
| Ordering.SortByStable | src/xybrush/scene.ts:98-108 | the sort is stable: for every key, the elements of that key keep their input order |
| Ordering.Reverse | src/xybrush/scene.ts:110-113 | element `i` of the result is element `n-1-i` of the input |
| Ordering.ReverseSortedDown | src/xybrush/scene.ts:110-113 | reversing a sorted sequence keeps its elements and sorts them downwards |
| Ordering.ReverseMultiset | src/xybrush/scene.ts:110-113 | reversing keeps every element with its multiplicity |
| Rectangle.EdgesFromFields | src/xybrush/rectangle.ts:16-34 | the edges are the position and the position plus the size |
| Rectangle.CenterIsMidpoint | src/xybrush/rectangle.ts:36-44 | the centre lies halfway between opposite edges |
| Rectangle.CornersContained | src/xybrush/rectangle.ts:46-49 | containment is inclusive: all four corners are contained |
| Rectangle.NegativeSizeContainsNothing | src/xybrush/rectangle.ts:46-49 | a rectangle of negative width or height contains no point |
| Rectangle.CenterContained | src/xybrush/rectangle.ts:36-49 | the centre of a rectangle of non-negative size is inside it |
| Rectangle.SharedEdgeDoesNotIntersect | src/xybrush/rectangle.ts:51-54 | rectangles that only touch along an edge do not intersect |
| Rectangle.IntersectsSymmetric | src/xybrush/rectangle.ts:51-54 | intersection is symmetric |
| Rectangle.SelfIntersection | src/xybrush/rectangle.ts:51-54 | a rectangle intersects itself exactly when its area is positive |
| Rectangle.IntersectingShareAPoint | src/xybrush/rectangle.ts:46-54 | intersecting rectangles share a point both contain |
| Style.NewStyle | src/xybrush/style.ts:27-46 | the constructor always sets a background colour |
| Style.DefaultStyle | src/xybrush/style.ts:27-36 | without options every field takes its default value |
| Style.SuppliedFieldsCopied | src/xybrush/style.ts:38-45 | every supplied field is stored as given |
| Style.OmittedFieldsDefaulted | src/xybrush/style.ts:27-45 | every omitted field gets its default value |
| Style.NoValidation | src/xybrush/style.ts:38-45 | negative sizes and alpha outside [0, 1] are stored unchanged |
| Box.CornerFractions | src/xybrush/box.ts:7-17 | corner fractions lie in [0, 1]; exactly the left corners have x 0; exactly the bottom corners have y 1 |
| Box.CalcBounds | src/xybrush/box.ts:78-107 | the global bounds keep the box's own size |
| Box.OriginSitsOnPin | src/xybrush/box.ts:78-122 | the origin point of the bounds is the pin point; with fractions in [0, 1] and a non-negative size the pin is inside |
| Box.CornerOnCorner | src/xybrush/box.ts:186-195 | after attachTo's origin and anchor, the source corner lies on the parent's target corner |
| Box.UnanchoredIsTranslated | src/xybrush/box.ts:84-106 | on an unanchored axis a child is placed as a parentless box, shifted by the parent's position |
| Box.AnchoredIgnoresPosition | src/xybrush/box.ts:91-99 | on an anchored axis the position field plays no part |
| Box.AxesIndependent | src/xybrush/box.ts:78-107 | the x placement depends only on x fields, and the y placement only on y fields |
| Box.AttachToExample | src/test.ts:12-18 | the demonstration box attached by its centre to the bottom-left corner lands at (75, 175) |
| Box.AncestorsLinear | src/xybrush/box.ts:27-28 | the ancestors of a box form a chain |
| Box.SubtreeTransitive | src/xybrush/box.ts:27-28 | a box in the subtree of a box in the subtree of `a` is in the subtree of `a` |
| Box.SiblingSubtreesDisjoint | src/xybrush/box.ts:27-28 | two children of one box have disjoint subtrees, and neither holds the parent |
| Box.FreshAgree | src/xybrush/box.ts:78-107 | the computed bounds depend only on the boxes of the ancestor chain |
| Box.SubtreeSplit | src/xybrush/box.ts:73 | a subtree is its root together with the subtrees of the root's children |
| Box.RemoveFirst | src/xybrush/box.ts:69 | removal from the index keeps only entries that were there |
| Box.EntriesRemoveFirst | src/xybrush/box.ts:69 | removal drops the first entry of that box and no entry of any other box |
| Box.EntriesAppend | src/xybrush/box.ts:75 | insertion adds one entry for that box at the end |
| Box.ChildIndex | src/xybrush/box.ts:109-112 | `index` is -1 without a parent; otherwise the box's position among its parent's children |
| Box.IndexOfAppended | src/xybrush/box.ts:207 | a child pushed last has the last position |
| Box.Boxes.constructor | src/xybrush/box.ts:21-47 | the arena starts with no boxes and an empty index |
| Box.Boxes.NewBox | src/xybrush/box.ts:49-65 | a new box has no parent or children, the default style, depth -1, and cached bounds at (x, y) |
| Box.Boxes.Insert | src/xybrush/box.ts:75 | registering appends one entry with the box's computed bounds |
| Box.Boxes.GlobalBounds | src/xybrush/box.ts:124-132 | the getter returns the computed bounds; it fills only absent caches, and only on the box's ancestor chain |
| Box.Boxes.ClearBounds | src/xybrush/box.ts:67-76 | every cache of the subtree holds its fresh bounds; each subtree box trades its first index entry for a fresh one at the end; nothing else changes |
| Box.Boxes.ClearChildren | src/xybrush/box.ts:73 | each child subtree is cleared in turn, in order |
| Box.Boxes.Relayout | src/xybrush/box.ts:154-184 | after a field change, the caches of the subtree are fresh and no box outside it moves |
| Box.Boxes.SetOrigin | src/xybrush/box.ts:154-160 | new origin fractions; subtree caches and index entries refreshed |
| Box.Boxes.SetAnchor | src/xybrush/box.ts:162-168 | new anchors; subtree caches and index entries refreshed |
| Box.Boxes.SetPosition | src/xybrush/box.ts:170-176 | new position; subtree caches and index entries refreshed |
| Box.Boxes.SetSize | src/xybrush/box.ts:178-184 | new size; subtree caches and index entries refreshed |
| Box.Boxes.Restyle | src/xybrush/box.ts:276-288 | a change that keeps placement and links moves no box |
| Box.Boxes.OnMouseOver | src/xybrush/box.ts:276-280 | the box turns blue and nothing else changes |
| Box.Boxes.OnMouseOut | src/xybrush/box.ts:284-288 | the box loses its background colour and nothing else changes |
| Box.Boxes.SetDepth | src/xybrush/box.ts:45 | only the depth of the box changes |
| Box.Boxes.AddChild | src/xybrush/box.ts:203-209 | the child gets its parent and depth parent+1 and is pushed last among the children; its subtree's caches are fresh; other boxes are untouched |
| Box.Boxes.SetParent | src/xybrush/box.ts:205-206 | the parent link is set and the child's subtree is cleared under it |
| Box.Boxes.AttachTo | src/xybrush/box.ts:186-195 | the whole new box sequence: the parent gains the box as its last child, the box gets the parent, depth parent+1 and the origin and anchor fractions of the two corners, every other box is untouched; the box's child index is the parent's old child count; its source corner lies on the parent's target corner; its subtree's caches are fresh; index entries outside the subtree are unchanged and a subtree box with at most one entry ends with exactly one, fresh |
| Box.Boxes.SetCorners | src/xybrush/box.ts:193-194 | setOrigin then setAnchor on one box: that box gets all four fractions and every other box is untouched; its subtree's caches are fresh; index entries refreshed as for AttachTo |
| Box.Boxes.Walk | src/xybrush/box.ts:197-201 | depth-first: the box, then the walk of each child in turn; that is exactly its subtree, each box once, every parent before its children |
| Scene.Normalise | src/xybrush/scene.ts:86-89 | the window is ordered and spans the absolute width and height |
| Scene.NormaliseFlip | src/xybrush/scene.ts:86-89 | a rectangle given from its opposite corner gives the same window |
| Scene.IntersectsImpliesOverlaps | src/xybrush/scene.ts:91-96 | the index's inclusive overlap is weaker than strict intersection |
| Scene.ContainedPointHits | src/xybrush/scene.ts:118-126 | a box containing the point is hit by the one-unit window there |
| Scene.Search | src/xybrush/scene.ts:91-96 | a box is returned exactly when one of its entries overlaps the window |
| Scene.SearchCounts | src/xybrush/scene.ts:91-96 | a box is returned once for every entry of it that overlaps the window |
| Scene.VisibleAtHits | src/xybrush/scene.ts:84-116 | the result is a permutation of the hits, ascending by key, or descending when reversed |
| Scene.TopHitIsHighest | src/xybrush/scene.ts:118-126 | the top hit exists exactly when something is hit, and no hit has a greater key |
| Scene.VisibleAreBoxes | src/xybrush/scene.ts:91-96 | only boxes of the arena are returned |
| Scene.DepthsCompareAsText | src/xybrush/scene.ts:104-107 | the keys compare as text: depth 10 ranks below depth 2 |
| Scene.CountsAppend | src/xybrush/scene.ts:210-237 | over and out counts add up across consecutive moves |
| Scene.OverOutBalance | src/xybrush/scene.ts:210-237 | one move sends at most one over and one out, and overs minus outs is the change in focus count |
| Scene.MoveEventsCases | src/xybrush/scene.ts:210-237 | the four focus transitions and the callbacks each sends |
| Scene.MoveSettles | src/xybrush/scene.ts:219 | a second move over the same box sends only the move |
| Scene.MoveEventsShape | src/xybrush/scene.ts:215-236 | a move over a box ends with its move callback; over empty space only the old focus hears an out |
| Scene.RepaintOnlyBackgrounds | src/xybrush/scene.ts:219-236 | a move changes only the background colours of the old and new focus |
| Scene.Scene.constructor | src/xybrush/scene.ts:7-22 | no children, no focus, screen at the origin |
| Scene.Scene.ScreenBounds | src/xybrush/scene.ts:52-55 | the screen rectangle starts at the screen origin and is as wide and as high as the canvas |
| Scene.Scene.SetOrigin | src/xybrush/scene.ts:65-70 | the screen origin moves, and local pointer positions shift with it |
| Scene.Scene.LocalMousePos | src/xybrush/scene.ts:72-82 | client position minus the canvas corner, plus the screen origin when asked |
| Scene.Scene.GetVisibleAtRect | src/xybrush/scene.ts:84-116 | the hits of the normalised window, sorted by key and reversed when asked |
| Scene.Scene.GetVisibleAtPoint | src/xybrush/scene.ts:118-126 | exactly the visible hits of the one-unit window at the point, topmost first (the getVisibleAtRect result with width and height 1); non-empty exactly when there is a top hit, which is its first element |
| Scene.Scene.AddChild | src/xybrush/scene.ts:191-196 | the box is appended to the children, registered in the index and given depth 0 |
| Scene.Scene.OnMouseDown | src/xybrush/scene.ts:198-208 | only the top box under the pointer hears a down |
| Scene.Scene.OnMouseUp | src/xybrush/scene.ts:239-248 | only the top box under the pointer hears an up |
| Scene.Scene.OnMouseMove | src/xybrush/scene.ts:210-237 | the focus becomes the top box under the pointer; the events and repaint follow the focus change |
| Scene.Scene.MoveFocus | src/xybrush/scene.ts:215-236 | the focus becomes the given box (or none); the old focus is left and loses its background, a new focus is entered and turns blue, the box under the pointer hears of the move |
| TextBox.CharactersSpellWord | src/xybrush/textbox.ts:154-164 | a word's characters spell it, one character each, as high as the font |
| TextBox.WordsSpellRawLine | src/xybrush/textbox.ts:147-174 | a raw line's words spell it; there is at least one; each is font-high and measured whole |
| TextBox.RawLineCount | src/xybrush/textbox.ts:133-144 | one raw line per line feed, plus one |
| TextBox.SplitLines | src/xybrush/textbox.ts:133-175 | the split pass gives the raw lines of the text |
| TextBox.SplitWords | src/xybrush/textbox.ts:138-174 | one raw line holds its measured words in order |
| TextBox.FlattenAppend | src/xybrush/textbox.ts:194-204 | the words of joined line lists are the words of each, in order |
| TextBox.OverflowAtEnd | src/xybrush/textbox.ts:186-192 | a word past the wrap width is never the first of its line and is only on the last line |
| TextBox.WrapKeeps | src/xybrush/textbox.ts:194-204 | a split keeps all words in order and leaves the earlier lines alone |
| TextBox.WrapLine | src/xybrush/textbox.ts:180-210 | a line that fits is left as it is; otherwise it is cut before its first word that ends past the wrap width, and the rest becomes a new line after it |
| TextBox.FirstOverflow | src/xybrush/textbox.ts:180-186 | every word before the returned position ends within the wrap width, and the word at it, if any, does not |
| TextBox.GreedyKeepsWords | src/xybrush/textbox.ts:194-204 | the greedy wrap of a line keeps its words in order; only the first piece keeps the line's fields |
| TextBox.GreedyKeepsFitting | src/xybrush/textbox.ts:182-210 | a line of narrow words is left whole exactly when it fits |
| TextBox.GreedyFits | src/xybrush/textbox.ts:178-211 | every piece of the greedy wrap of a line of narrow words fits, and none is empty |
| TextBox.GreedyCutsLate | src/xybrush/textbox.ts:186-206 | the cut is as late as it can be: each new line starts with a word that would have ended past the wrap width on the line before |
| TextBox.GreedyAllKeepsWords | src/xybrush/textbox.ts:178-211 | wrapping all lines keeps all words, in order |
| TextBox.GreedyAllFits | src/xybrush/textbox.ts:178-211 | wrapping lines of narrow words gives lines that all fit and are non-empty |
| TextBox.GreedyStep | src/xybrush/textbox.ts:178-211 | each pass of the outer loop finishes one more line of the greedy wrap |
| TextBox.WrapLines | src/xybrush/textbox.ts:178-211 | the result is the greedy wrap of the lines; the words stay in order, every line fits, no line is emptied, and the earlier raw lines are kept |
| TextBox.MaxHeightIsTallest | src/xybrush/textbox.ts:219-226 | the line height is the tallest word's height, or 0 |
| TextBox.OffsetIsWidthPlusSpaces | src/xybrush/textbox.ts:180-209 | the cursor at a word is the widths before it plus one space each |
| TextBox.FittingLineWidth | src/xybrush/textbox.ts:178-226 | a wrapped line's width plus its inner spaces is within the wrap width |
| TextBox.MeasureLines | src/xybrush/textbox.ts:213-227 | each line's width is the sum of its word widths and its height the tallest word's |
| TextBox.Layout | src/xybrush/textbox.ts:126-230 | the result is the greedy wrap of the text's lines, each sized from its words; the laid-out words are the text's words in order, and every line fits and is non-empty |
| TextBox.LaidOutWordsSpellText | src/xybrush/textbox.ts:133-174 | the words spell the text with its line feeds left out |
| TextBox.WordsSpellLines | src/xybrush/textbox.ts:133-174 | the words of all raw lines spell the raw lines joined together |
| TextBox.TextHeightOfLines | src/xybrush/textbox.ts:56-59 | a laid-out text is one font size high per line |
| TextBox.StackIsProduct | src/xybrush/textbox.ts:58 | adding a height n times is n times the height |
| TextBox.TextHeightStacks | src/xybrush/textbox.ts:56-59 | lines made of font-high words stack to one font size per line |
| TextBox.GetSelectedObjects | src/xybrush/textbox.ts:232-284 | the first line under y; then the first word under the point; then the first character from that word's left |
| TextBox.SomeLineHolds | src/xybrush/textbox.ts:238-249 | every y from the top to the bottom of the text is in some line |
| Aggregator.IndexOf | src/aggregator.ts:66 | `indexOf`: -1 exactly when absent; otherwise the first position |
| Aggregator.KeysOfAdded | src/aggregator.ts:42-60 | the key order holds each added key once, and nothing else |
| Aggregator.RecordsUnderAdded | src/aggregator.ts:42-52 | a group holds exactly the rows added under its key |
| Aggregator.RecordsUnderEmpty | src/aggregator.ts:42-52 | a key has rows exactly when it was added |
| Aggregator.TotalSizeGrows | src/aggregator.ts:10-13 | one more row adds one to the total size of the groups that hold its key |
| Aggregator.TotalSizeIsRowCount | src/aggregator.ts:10-13 | the group sizes add up to the number of rows added |
| Aggregator.Aggregator.constructor | src/aggregator.ts:20-23 | the map starts empty |
| Aggregator.Aggregator.HasRecord | src/aggregator.ts:25-28 | true exactly when rows were added under the key |
| Aggregator.Aggregator.GetRecord | src/aggregator.ts:30-40 | fails with the source's message exactly for a key never added; otherwise the non-empty group of its rows |
| Aggregator.Aggregator.AddRecord | src/aggregator.ts:42-52 | a new key goes last in the order with a one-row group; otherwise the row goes last in its group |
| Aggregator.Aggregator.ForEach | src/aggregator.ts:54-60 | every group once, in first-added order |
| Aggregator.Aggregator.Collect | src/aggregator.ts:62-76 | fails on an unknown key first, then an unknown column; otherwise each row's cell of that column, in order |
| Csv.PutIsSet | src/csv.ts:74-86 | `Map.set`: keys stay distinct; the key now has the value; other keys keep theirs; a new key goes last |
| Csv.FirstMatch | src/csv.ts:113-141 | none exactly when no rule matches; otherwise the first matching rule |
| Csv.ConvertedByFirst | src/csv.ts:128-141 | the first matching converter decides; rules added after it change nothing |
| Csv.FiledHasCells | src/csv.ts:143-160 | every filed row has the cell its key was read from |
| Csv.FiledOneMore | src/csv.ts:143-160 | filing the next row under its key extends the filing by one |
| Csv.Csv.constructor | src/csv.ts:50-56 | no header, no rows, no rules |
| Csv.Csv.FromParsedRows | src/csv.ts:32-48 | the first parsed row is the header and the rest are the rows |
| Csv.Csv.SetData | src/csv.ts:58-72 | stores header and rows; the column and row counts are their lengths |
| Csv.Csv.Replace | src/csv.ts:74-79 | a pattern object sets its replacement in the map |
| Csv.Csv.ReplaceText | src/csv.ts:74-79 | a text pattern becomes a new object, so its rule always goes last |
| Csv.Csv.Convert | src/csv.ts:81-86 | a pattern object sets its converted value in the map |
| Csv.Csv.ConvertText | src/csv.ts:81-86 | a text pattern becomes a new object, so its rule always goes last |
| Csv.Csv.GetColumnIndex | src/csv.ts:88-98 | the first column of that name, or the source's error exactly when there is none |
| Csv.Csv.GetRowValue | src/csv.ts:100-111 | an unknown column fails first, then a missing row; a short row gives undefined |
| Csv.Csv.ReplaceValue | src/csv.ts:113-126 | only the first matching replacer is applied; without a match the value is unchanged |
| Csv.Csv.ConvertValue | src/csv.ts:128-141 | the first matching converter gives the value; without a match it is unchanged |
| Csv.Csv.AggregateBy | src/csv.ts:143-160 | succeeds exactly when there are no rows or every row has the column; then every row is filed, in order, under its trimmed, replaced, converted cell |
| Csv.Csv.FileRow | src/csv.ts:149-156 | one loop pass: the row is filed under its key, or the error it raises |
| Csv.Csv.RowKey | src/csv.ts:150-154 | the key of a row is its cell trimmed, replaced and converted; an unknown column or a short row fails |

## Left out

- Painting: `render`, `draw`, `drawBackground`, the canvas painter and `Scene.render`, `drawScreenBounds` and `drawGrid`. These are output only.
- The scene's canvas: its constructor's event wiring, `setSize`, the `ctx` getter and the body `onmousemove` handler are DOM calls. `screenBounds` takes the canvas size as parameters; `localMousePos` takes the canvas's client rectangle as parameters.
- The box pointer handlers: `onMouseDown` (a drag through `mouseDrag`), `onMouseMove` and `onMouseUp` only log or start a drag. The scene's handlers are modelled as the callbacks they send, as `Event` values.
- Logging (`console.log`) is left out everywhere.
- `Box.Boxes.AddChild`: requires the child to have no parent and the parent not to lie in the child's subtree. The source does not check this. Re-parenting leaves the child listed under its old parent too, and a cycle makes `clearBounds` recurse forever.
- `Box.Boxes.SetParent`: carries the same requirement as `AddChild`, of which it is the first half: the child has no parent and the parent is not in the child's subtree. The source does not check this either.
- `Box.Boxes.AttachTo`: carries the same requirement, because it starts with `addChild`. Attaching a box that already has a parent, or attaching a box below itself, is not modelled. Its index promise covers boxes of the subtree with at most one entry; for a box indexed more than once it does not say which entries remain (its three clearings each drop the first entry and append a fresh one).
- `Box.Boxes.SetCorners`: the same index promise as `Box.Boxes.AttachTo`, for its two clearings.
- The RBush index: it is a sequence of entries. Its tree shape and search order are not modelled; search returns hits in entry order. `remove` is by identity and ignores the rectangle.
- `Box.Boxes.Insert`, `Scene.Scene.AddChild` and `Box.Boxes.ClearBounds`: an index entry keeps the rectangle its box had when the entry was added, and `clearBounds` swaps only a box's first entry for a fresh one. In the source the tree holds the box object itself and its leaf test reads the box's current `minX`..`maxY`. A box indexed twice (added to the scene twice, or added to the scene after `Box.addChild` indexed it) therefore keeps a stale second entry here: after it moves, it is still hit at its old place and hit once at its new place, where the source no longer finds it at the old place. No call in the source indexes a box twice.
- `localeCompare`: modelled as code-point order. The source's comparison is locale-dependent; for keys of digits and `-` the two agree.
- `TextBox.Layout`: requires every word to fit the wrap width on its own, and every raw line but the last to fit unwrapped. Otherwise the source either loops forever or moves the overflow into the existing next line and then inserts that same line object a second time. Under these requirements only the last line can overflow, so the next line is always a new one.
- `TextBox.WrapLine`: carries the same restriction as `Layout` for the one line it wraps: every word of that line fits on its own, and a line that is not the last already fits.
- `TextBox.WrapLines`: carries the same restriction as `Layout` for all raw lines, through `Wrappable`.
- Text metrics: the canvas's `measureText` is the parameter `measure`, with the space width `measure(" ")`.
- The `TextBox` class: its constructor, `defaultState`, `calcGlobalBounds`, `draw`, `setText`, `resize` and `onMouseDown` depend on a box class with state and a scene that is not part of this model. Only `layout`, the `height` getter and `getSelectedObjects` are modelled.
- Regular expressions: matching and substitution are the parameters `matches` and `substitute`. The `lastIndex` state of global or sticky patterns, which `exec` updates, is not modelled.
- CSV parsing with `csvtojson` and `fromFile`'s file read are foreign calls. `FromParsedRows` models the part of `fromText` after parsing.
- `Csv.Csv.ReplaceText` and `Csv.Csv.ConvertText`: always succeed. `new RegExp` throws a SyntaxError on a pattern text that is not a valid regular expression. Pattern syntax belongs to the regular-expression engine, which is a parameter here.
- `TextBox.MakeWord`: splits a word into Unicode scalar values. `split('')` splits it into UTF-16 code units, so a character outside the Basic Multilingual Plane, such as an emoji, is two separately measured characters in the source and one here.
- `Csv.Csv.FromParsedRows`: requires at least one parsed row. With none, the source stores an undefined header.
- `Csv.Csv.GetRowValue`: takes an integer row index. A fractional index, which the source also reports as a missing row, is not modelled.
- `Csv.Csv.RowKey`: the error for a short row is given the V8 message for calling `trim` on `undefined`. The exact text depends on the JavaScript engine.
- The `return this` chaining of `replace` and `convert` is not modelled; the methods change the object in place.
- `Aggregator.sum`: left out. It adds floating-point numbers parsed with `parseFloat`.
- `Aggregator.Aggregator.GetRecord`: returns the group as a value. The source returns the live `AggregatedRecord` object, which a later `addRecord` for the same key still extends.
- `forEach` returns the groups in visiting order instead of calling a callback; `walk` returns the visiting order instead of calling its callback.
- Numbers are real numbers. JavaScript doubles, with their rounding, NaN and infinities, are not modelled.
- `Csv.Csv.ColumnCount` and `Csv.Csv.RowCount` have no contract of their own. `SetData` states what they return.
