# Navigation and selection state of the jwt-ui terminal dashboard

This project models the navigation and selection state engine of the jwt-ui
terminal dashboard (`src/app/models.rs`) in Dafny and proves properties of it.
The engine tracks where the cursor sits in each on-screen collection and how
that position moves:

- `Scrollable::handle_scroll` turns an (up, page) key press into a step of 1 or
  10 and dispatches it to the collection's `scroll_up` or `scroll_down`
  (module `Scroll`, function `Resolve`, and a `HandleScroll` per collection).
- `StatefulList` is cyclic navigation over a list. Stepping past the end
  returns to the first item, and stepping up from the first item lands `n`
  items before the end (module `Lists`).
- `StatefulTable` is clamped navigation over a table. It also has a refresh
  (`set_items`) that keeps the selected row across a data replacement, and a
  copy of the selected row (module `Tables`).
- `TabsState` is a non-empty tab bar whose index wraps in both directions
  (module `Tabs`).
- `ScrollableTxt` is a text pane. It keeps the text split at line breaks and
  gives it back joined (module `Lines` holds split and join). Its vertical
  offset moves down only while a guard band of two lines stays below
  (module `Txt`).

Every collection is an immutable datatype and every operation is a pure
function from the old state to the new one. The widget library's
`ListState`/`TableState` are modelled as an `Option<nat>` selection. A tab's
route is a type parameter. Sequences of key presses (and, for the table,
refreshes) are modelled by `Run` functions. Lemmas show that every such
sequence keeps each collection's invariant.

Two behaviours of the code are easy to misread; the model follows the code as
written:

- On a list, `scroll_down`/`scroll_up` with no selection select index 0
  directly. They do not first treat the missing selection as 0 and then step.
  On an empty list they also select index 0, so a list with no items can hold
  `Some(0)` (models.rs:54, 60, 69, 74). The list invariant `Lists.Inv`
  therefore allows index 0 on an empty list.
- `StatefulTable::set_items` with no rows keeps the old selection instead of
  clearing it (models.rs:106). So "no selection exactly when the table is
  empty" does not hold for the code. The table invariant `Tables.Inv` only
  says that a non-empty table has an in-range selection.

## Model

| member | source | states |
|---|---|---|
| Scroll.Resolve | src/app/models.rs:15-23 | `scroll_up` runs exactly when `up` is set; the step is 10 for a page and 1 otherwise, so it is never 0 |
| Lists.New | src/app/models.rs:34-39 | a new list has no items and no selection, and it satisfies the list invariant |
| Lists.WithItems | src/app/models.rs:40-46 | the list holds the given items; index 0 is selected exactly when there are items, otherwise nothing is selected |
| Lists.ScrollDown | src/app/models.rs:51-63 | items are unchanged; no selection becomes 0; selection `i` becomes `i+n` when `i+n` is within the list, otherwise it wraps to 0; the result is in range or 0 |
| Lists.ScrollUp | src/app/models.rs:65-77 | items are unchanged; no selection becomes 0; from 0 the selection wraps to `len-n` (0 if the list is shorter than `n`); from `i>0` it becomes `i-n`, floored at 0; with `n>=1` the invariant is kept |
| Lists.HandleScroll | src/app/models.rs:15-23 | an up press runs `ScrollUp` and a down press runs `ScrollDown`, with step 10 for a page and 1 otherwise; the list's items are unchanged, a selection always remains, and the invariant is kept |
| Lists.ScrollStaysInRange | src/app/models.rs:51-77 | on a non-empty list with an in-range selection, both directions stay in range for any step of at least 1 |
| Lists.SingleStepIsCyclic | src/app/models.rs:50-77 | a line step down is `(i+1) mod len` and a line step up is `(i-1) mod len`: list navigation is cyclic |
| Lists.LineStepsAreInverse | src/app/models.rs:51-77 | for an in-range selection, a line step up undoes a line step down, and a line step down undoes a line step up |
| Lists.RunKeepsInv | src/app/models.rs:14-77 | no sequence of key presses takes a list out of its invariant |
| Lists.ThreeItemScenario | src/app/models.rs:15-77 | on three items: a page down from 0 wraps to 0, a line down from 2 wraps to 0, and a line up from 0 wraps to 2 |
| Tables.New | src/app/models.rs:87-92 | a new table is empty and unselected, and it satisfies the table invariant |
| Tables.WithItems | src/app/models.rs:94-101 | the table holds the given rows; row 0 is selected exactly when there are rows, otherwise nothing is selected |
| Tables.SetItems | src/app/models.rs:103-118 | rows are replaced; with rows, a selection still in range is kept, one at or past the end becomes the last row, and none becomes row 0; with no rows the old selection stays; the invariant always holds afterwards |
| Tables.ScrollDown | src/app/models.rs:122-130 | rows are unchanged; an unselected table stays as it is; selection `i` becomes `min(i+n, len-1)`, or 0 on an empty table; the invariant is kept |
| Tables.ScrollUp | src/app/models.rs:132-138 | rows are unchanged; an unselected table and one on row 0 are untouched; otherwise the selection becomes `i-n`, floored at 0; the invariant is kept |
| Tables.HandleScroll | src/app/models.rs:121-139 | an up press runs `ScrollUp` and a down press runs `ScrollDown`, with step 10 for a page and 1 otherwise; the rows are unchanged, a selection is never added or removed, and the invariant is kept |
| Tables.GetSelectedItemCopy | src/app/models.rs:141-150 | returns nothing exactly when the table is empty or unselected, otherwise the selected row; the lookup is in bounds on every table that keeps the invariant |
| Tables.RefreshKeepsPlace | src/app/models.rs:103-118 | a refresh whose rows still contain the selected position keeps that selection, and the copy then reads the new row there |
| Tables.ClampsAtBothEnds | src/app/models.rs:121-139 | from the last row any step down stays put, and from row 0 any step up stays put |
| Tables.RunKeepsInv | src/app/models.rs:103-139 | no interleaving of refreshes and key presses breaks the table invariant |
| Tables.RefreshAndStepTrace | src/app/models.rs:240-282 | the refresh-and-scroll trace of the table test: item counts 0, 2, 3 and selections none, 0, 1, then 1 after shrinking back to two rows, then 1, 1, 0, 0, 1 across steps, and `with_items` of two rows selects 0 |
| Tables.KeyPressTrace | src/app/models.rs:284-308 | the key-press trace over rows A, B, C: selections 1, 2, 2, 1, 2, 0 |
| Tabs.New | src/app/models.rs:165-167 | a new tab bar starts on tab 0 and has a valid index exactly when it has tabs |
| Tabs.GetActiveRoute | src/app/models.rs:172-174 | on a valid tab bar the active route is the route of the tab at the current index, the one `set_index(index)` hands back |
| Tabs.SetIndex | src/app/models.rs:168-171 | for `k` within the tabs: the index becomes `k`, the tabs are unchanged, and tab `k` is returned |
| Tabs.SetIndexActivates | src/app/models.rs:168-174 | after `set_index(k)` the active route is tab `k`'s route, and `set_index` to the current index leaves the bar unchanged |
| Tabs.Next | src/app/models.rs:176-178 | the index becomes the next tab, and the last tab wraps to 0; the result is always a valid index |
| Tabs.Previous | src/app/models.rs:179-185 | the index becomes the preceding tab, and tab 0 wraps to the last tab; a valid index stays valid |
| Tabs.PreviousUndoesNext | src/app/models.rs:176-185 | `previous` undoes `next`, and `next` undoes `previous` |
| Tabs.NextTimesIndex | src/app/models.rs:176-178 | `k` calls to `next` land on index `(index + k) mod len` |
| Tabs.FullCycle | src/app/models.rs:176-178 | calling `next` once per tab returns to the starting state |
| Tabs.TwoTabTrace | src/app/models.rs:310-343 | the two-tab trace: index 0, 1, 0, 1, 0, with the active route following the index |
| Lines.Split | src/app/models.rs:196-197 | splitting on `'\n'` gives one more line than the text has line breaks, and no line contains a break |
| Lines.JoinSplit | src/app/models.rs:195-203 | For every string `s`, joining the lines of `s` split at `'\n'` with `'\n'` gives back exactly `s`. |
| Lines.SplitJoin | src/app/models.rs:195-203 | splitting the join of one or more break-free lines gives back those lines |
| Txt.New | src/app/models.rs:195-199 | a new pane starts at offset 0, has (line breaks + 1) break-free lines, and its text is the input |
| Txt.GetTxt | src/app/models.rs:201-203 | the returned text splits back into the pane's lines |
| Txt.ScrollDown | src/app/models.rs:207-213 | lines are unchanged; the offset advances by `n` exactly when `offset + n + 2 < len`, otherwise nothing changes; the invariant `offset = 0 or offset + 3 <= len` is kept |
| Txt.ScrollUp | src/app/models.rs:214-219 | lines are unchanged; the offset drops by `n`, floored at 0, and never grows; the invariant is kept |
| Txt.HandleScroll | src/app/models.rs:15-23 | an up press runs `ScrollUp` and a down press runs `ScrollDown`, with step 10 for a page and 1 otherwise; the pane's lines are unchanged and the invariant is kept |
| Txt.RunKeepsInv | src/app/models.rs:195-219 | after any key presses on a pane built from a text, the pane still gives back that text and keeps the invariant |
| Txt.LineStepStopsAtGuard | src/app/models.rs:207-213 | a line step down moves exactly while `offset + 3 < len`, so repeated line steps stop at `len - 3` |
| Txt.ShortTextTrace | src/app/models.rs:345-354 | a three-line text has three lines, starts at 0, gives back its text, and cannot scroll down |
| Txt.TenLineTrace | src/app/models.rs:356-373 | a ten-line text steps to offsets 1, 2, 7, 7, then 6, 0, 0 |
| Txt.U16StepAgrees | src/app/models.rs:210-211 | with at most 65536 lines, the 16-bit downward step equals the unbounded one |
| Txt.U16StepStuck | src/app/models.rs:210-211 | with 65539 lines the 16-bit line-step bound wraps to 0, so the pane cannot scroll by a line step while the unbounded step moves to 1; a page step still moves it to offset 10, and from there line steps are stuck again |

## Findings

| source | as written | input that shows it | evidently intended | confidence | as-written member | corrected member |
|---|---|---|---|---|---|---|
| src/app/models.rs:210 | the scroll bound `len.saturating_sub(increment + 2)` is cast `as u16` before it is compared with the offset, so it wraps modulo 65536 | a text of 65539 lines at offset 0 with a line step down: the bound 65536 becomes 0, so the pane cannot scroll by a line step (a page step still moves it, since its bound 65527 fits in 16 bits) | compare against the full bound, so any text with more than `offset + n + 2` lines scrolls | not executed; needs a text of at least 65539 lines | Txt.ScrollDownU16 (exhibited by Txt.U16StepStuck) | Txt.ScrollDown |

The rest of the model uses `Txt.ScrollDown`, which keeps the offset as an
unbounded natural. `Txt.U16StepAgrees` shows that the two steps agree on every
text of at most 65536 lines.

## Left out

- Rendering is not modelled: `src/ui/decoder.rs`, the `AppResource::render` trait (models.rs:10-12), and everything that touches `Frame`, `Backend`, layout or styles. It only reads this state and paints it.
- The internals of the widget library's `ListState` and `TableState` are not modelled. Only the selected index is kept, as an `Option<nat>`.
- `TabRoute.title` and the contents of `Route` are not modelled. The title is kept as a string, and the route is an opaque type parameter.
- Tabs.Next requires a non-empty tab bar: `% len` at models.rs:177 panics on an empty bar in every build.
- Tabs.Previous requires a non-empty tab bar. On an empty bar with `index > 0` the source just decrements (models.rs:180-181); with `index == 0`, `len() - 1` at models.rs:183 panics when overflow checks are on and wraps to `usize::MAX` otherwise. Neither empty-bar path is modelled.
- Tabs.SetIndex and Tabs.GetActiveRoute require an index within the tabs: the indexing at models.rs:170 and :173 panics otherwise, in every build.
- Tables.ScrollDown: `i + increment` (models.rs:124) is unbounded addition here. The source's unchecked `usize` addition could overflow only near `usize::MAX`.
- Txt.ScrollDown: the offset is an unbounded natural, not a `u16`. The 16-bit behaviour is `Txt.ScrollDownU16`, and the Findings row explains it. The possible overflow of `increment + 2` near `usize::MAX` is not modelled.
- Txt.ScrollDownU16: the `+=` at models.rs:211 is modelled as 16-bit wrap-around, as a release build does; a debug build panics with an add overflow there instead. The wrap needs a text of more than 65536 lines (for example 65545 lines, offset 65532 and a page step give offset 6); `Txt.U16StepAgrees` covers every shorter text, where no overflow occurs.
- Tables.GetSelectedItemCopy: the requirement that a selection on a non-empty table lies within the rows excludes the out-of-range panic at models.rs:146. The source can reach that input by writing the public `state` field directly and then calling `get_selected_item_copy`; its test writes that field directly at models.rs:250 and :259, but only with in-range values (`Some(1)` on two rows, `Some(2)` on three) and without calling `get_selected_item_copy`; every table that keeps `Tables.Inv` meets the requirement.
- Txt.ScrollUp: `decrement as u16` (models.rs:217) is not truncated. This differs from the source only for steps of 65536 or more, which the key handler never produces.
- Txt.TenLineTrace: the ten-line text is written as its lines joined with `'\n'`, not as a single string literal. Both denote the same text.
- The empty test `test_kube_resource` (models.rs:228-237) and the derived `Default`, `Clone` and `Debug` implementations are not modelled.
