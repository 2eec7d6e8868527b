# Swipeable row: decision logic

This project models the decision logic of a swipeable list row built from
Reanimated animation nodes, as it appears in the repository in two component
revisions and a helper file:

- `SwipeableItem` (src/index.tsx), the current component;
- `SwipeRow` (index.tsx), the older component;
- the derived-condition helpers of src/procs.tsx.

The row holds the following state:
- a position;
- the offset captured when the gesture state changes (`prevTranslate`);
- the last pan translation (`panX`);
- the gesture state;
- a clock with a spring target (`toValue`) and a `finished` flag;
- three request flags (open left, open right, close);
- the React field `swipeDirection`;
- in `SwipeableItem` only, two pending promise resolvers.

Four kinds of event change that state:
- a gesture-state change captures the start offset and, on END, picks a release target;
- a pan sample moves the row within bounds, or is rejected;
- a call of `open(side)` or `close()` raises the matching request flag; in `SwipeableItem` it first calls the stored resolver of the same kind, then stores the resolver of a new promise;
- a frame (`runCode`) does three things:
  - consumes the request flags;
  - tracks the swipe direction through three `onChange` nodes;
  - when the spring reports finished, stops the clock and runs exactly one of `onClose` and `onOpen`.

Modules:

- `Procs`: the helpers of src/procs.tsx. `AnimatedValue` is a small class, because `getOnPanEvent` writes to one in place.
- `Nodes`: the derived nodes (swiping, leftActive, threshold, underlay width and position, percent open, isOpen, isClosed). Both revisions define them identically, except the percent-open nodes, which only SwipeableItem defines.
- `Machine`: the row as a pure state machine over a `RowState` value.
  - A `Revision` parameter (`Legacy` for SwipeRow, `Current` for SwipeableItem) carries the two behavioural differences: whether the translate bounds are gated on the side having width, and whether `onClose` clears `swipeDirection`.
  - `Inv` is the invariant every reachable state keeps. The lemmas here hold for all event sequences.
  - A seven-event trace shows where the two revisions report differently.
- `Item`: the `SwipeableItem` class, whose fields are the component's state, together with the promise bookkeeping of `open`/`close`. Every method is proved to leave the row part of the object in the state the matching `Machine` function gives, and the promise part in the state the matching `Item` function (`Resolve`, `OpenPromise`, `ClosePromise`, `SettleFrame`) gives. The constructor and the event methods (`OnHandlerStateChange`, `OnPanEvent`, `Open`, `Close`, `RunCode`) are also proved to establish or keep `Valid()`; the pieces `RunCode` is built from are not, since the invariant need not hold between them.
- `Row`: the `SwipeRow` class, proved the same way against the `Legacy` revision.

Modelling choices:
- A Reanimated `onChange` node is a memory (`Option`) of the last value it saw. It fires on its first evaluation and whenever the value differs from that memory.
- The spring is abstract. A frame receives the position the spring step leaves and whether the spring reports finished; the code only branches on `position == 0`.
- `call(...)` and `setState` take effect at once.
- A promise is a number drawn from a counter. A stored resolver is the number of the promise it settles; `None` stands for the initial no-op resolver. Calling a resolver adds its number to the `settled` set.
- A report through the `onChange` prop is a `Direction`: `NoDirection` stands for `open: false`.

The code has no velocity input and no snap points besides the three resting positions, and it does not suppress repeated close notifications. This model follows the code:
- release uses a half-width threshold between three resting positions;
- `onClose` reports `open: false` every time it runs, even if the row was already reported closed;
- there is one pending promise per kind (open and close), not one per row;
- a promise from `open` whose animation ends at position 0 is not settled by that animation.

In `SwipeableItem`, `onClose` clears `swipeDirection` but the direction watchers keep their memories, which still say "left" (or "right"): the frame that runs `onClose` evaluates the watchers before the spring step moves the row to zero. The watchers only forget that side when some later frame sees the row at zero. If instead the next frame already sees the row pulled back to the same side, for instance because the user closed the row and then swiped it open on the same side again, the watchers do not fire, `swipeDirection` stays null, and the `onOpen` that ends that swipe reports `false` instead of the side. Nothing in the model requires this to be a race: it needs only that no frame sees the row at zero between the close and the next swipe. `Machine.DragThroughCloseReports` exhibits it on a concrete trace, on which the older `SwipeRow` reports "left". This is modelled as written.

## Model

| member | source | states |
|---|---|---|
| Procs.OpenPct | src/procs.tsx:66-72 | 0 when not swiping; otherwise the fraction times the width is \|pos\|; non-negative for a positive width; at least 1 exactly when swiping and \|pos\| reaches the width |
| Procs.LeftActive | src/procs.tsx:74-80 | the left side is in play whenever the row swipes left, never while it swipes right, and at rest exactly when the pan went left |
| Procs.LeftActiveAtPosition | src/procs.tsx:74-80 | with the row's swiping nodes, leftActive holds exactly when the position is negative, or is zero and the pan went left |
| Procs.MaxTranslate | src/procs.tsx:82-88 | 0 without a right side, otherwise overSwipe beyond rightWidth; within [0, rightWidth + overSwipe] for non-negative inputs |
| Procs.MinTranslate | src/procs.tsx:90-96 | the negation of getMaxTranslate on the left-side inputs; within [-(leftWidth + overSwipe), 0] for non-negative inputs |
| Procs.IsActive | src/procs.tsx:98-103 | false exactly for UNDETERMINED, FAILED, CANCELLED and END, so true exactly for ACTIVE and BEGAN |
| Procs.AcceptsPan | src/procs.tsx:113-118 | an accepted candidate means an ACTIVE gesture and non-empty bounds; in an ACTIVE gesture the upper bound itself is accepted |
| Procs.OnPanEvent | src/procs.tsx:105-121 | the value becomes the candidate when the gesture is ACTIVE and the candidate is within [min, max]; otherwise it is untouched, not clamped |
| Nodes.UnderlayPosition | src/index.tsx:148-161 | -widthLeft when the left side is in play, widthRight otherwise |
| Nodes.SwipingLeft | src/index.tsx:105 | a row left of zero is not right of it, and is left of zero exactly when its mirror image is right of zero |
| Nodes.SwipingRight | src/index.tsx:106 | a row right of zero is at its own distance from zero |
| Nodes.IsSwiping | src/index.tsx:115 | the row is swiping exactly when it is off zero |
| Nodes.UnderlayWidth | src/index.tsx:148-152 | the width of the side in play, left when leftActive and right otherwise; non-negative for non-negative widths |
| Nodes.RowLeftActive | src/index.tsx:117-120 | the left side is in play exactly when the position is negative, or is zero and the last pan went left |
| Nodes.ExceedsThreshold | src/index.tsx:132-146 | left of zero, the row is past half the left width; otherwise past half the right width; a row at rest never exceeds a non-negative right threshold |
| Nodes.ReleaseTarget | src/index.tsx:132-161 | the release target is always one of {-widthLeft, 0, widthRight}; for non-negative widths, it is the open position of the side the row is on when the row is more than half open, and 0 otherwise |
| Nodes.PercentOpenLeft | src/index.tsx:105-110 | non-negative; at least 1 exactly when the row is at or beyond -widthLeft; 0 when the row is not left of zero |
| Nodes.PercentOpenRight | src/index.tsx:111-114 | non-negative; at least 1 exactly when the row is at or beyond widthRight; 0 when the row is not right of zero |
| Nodes.IsOpen | src/index.tsx:153 | left of zero, open exactly at or beyond -widthLeft; right of zero, at or beyond widthRight; at rest, exactly when the side in play has no positive width |
| Nodes.IsClosed | src/index.tsx:155 | left of zero, closed exactly within -widthLeft; right of zero, within widthRight; always closed at rest for non-negative widths |
| Nodes.OpenClosedCover | src/index.tsx:148-155 | every position is open or closed; it is both exactly at the edge of the underlay in play; off zero, open agrees with percent-open reaching 1 |
| Machine.OnHandlerStateChange | src/index.tsx:198-220 | stores the gesture state; prevTranslate takes the position exactly when the state differs from the last one seen; on END with the clock stopped, the clock starts toward the release target; otherwise clock and target are untouched |
| Machine.ReleaseAimsAtRestingPosition | src/index.tsx:205-216 | after the finger lifts, the spring runs toward a resting position: the open side past half its width, else 0 |
| Machine.MaxTranslate | src/index.tsx:222-226 | 0 when the left side is in play; otherwise getMaxTranslate of the right side, or widthRight + overSwipe ungated in SwipeRow (index.tsx:168) |
| Machine.MinTranslate | src/index.tsx:227-231 | 0 when the right side is in play; otherwise getMinTranslate of the left side, or -(widthLeft + overSwipe) ungated in SwipeRow (index.tsx:169) |
| Machine.OnPanEvent | src/index.tsx:233-261 | panX always takes the translation; the position becomes translation + prevTranslate exactly when the guard accepts, and otherwise stays; only an ACTIVE gesture moves the row; nothing else changes |
| Machine.PanNeverCrossesZero | src/index.tsx:222-261 | a pan takes a row left of zero at most to zero, and a row right of zero at least to zero, in both revisions |
| Machine.CurrentPanBounds | src/index.tsx:222-231 | in SwipeableItem an accepted pan lands within [-(widthLeft + overSwipe), widthRight + overSwipe], and a side of width 0 admits no travel to it |
| Machine.LegacyOverSwipesWithoutUnderlay | index.tsx:168-169 | in SwipeRow, with no left underlay a left pan still moves the row by overSwipe, while SwipeableItem rejects the same pan |
| Machine.RequestOpen | src/index.tsx:171-172 | open raises the flag of the requested side; the other open flag, the close flag and the rest of the state are unchanged (also index.tsx:125-128) |
| Machine.RequestClose | src/index.tsx:182 | close raises the close flag and changes nothing else (also index.tsx:131) |
| Machine.ConsumeFlags | src/index.tsx:265-285 | all three flags end lowered; the clock runs if it ran or any flag was raised; the target comes from close over openRight over openLeft; nothing else changes |
| Machine.ConsumeOpenLeft | src/index.tsx:265-272 | a raised openLeft flag aims the spring at -widthLeft, starts the clock and is lowered; otherwise nothing changes |
| Machine.ConsumeOpenRight | src/index.tsx:273-280 | a raised openRight flag aims the spring at widthRight, starts the clock and is lowered; otherwise nothing changes |
| Machine.ConsumeClose | src/index.tsx:281-285 | a raised close flag aims the spring at 0, starts the clock and is lowered; otherwise nothing changes |
| Machine.OnSwipeLeftChange | src/index.tsx:122-124 | a true value sets the direction to left and changes nothing else; a false one changes nothing |
| Machine.OnSwipeRightChange | src/index.tsx:125-127 | a true value sets the direction to right and changes nothing else; a false one changes nothing |
| Machine.OnIsSwipingChange | src/index.tsx:128-130 | a false value clears the direction and changes nothing else; a true one changes nothing |
| Machine.WatchSwipingLeft | src/index.tsx:286-289 | the memory takes "position < 0"; the direction becomes left exactly when the row is left of zero and the memory did not already say so |
| Machine.WatchSwipingRight | src/index.tsx:290-293 | the memory takes "position > 0"; the direction becomes right exactly when the row is right of zero and the memory did not already say so |
| Machine.WatchIsSwiping | src/index.tsx:294 | the memory takes "position != 0"; the direction is cleared exactly when the row is at zero and the memory did not already say so |
| Machine.SyncDirectionFollowsSign | src/index.tsx:122-130 | after the three watchers, the memories hold the sign of the position; if the direction agreed with the memories, it is now the side the row is on; otherwise it is that side or cleared; at zero it is always cleared |
| Machine.OnOpen | src/index.tsx:185-188 | onOpen reports the current swipe direction (false when there is none) and changes nothing else (also index.tsx:133-135) |
| Machine.OnClose | src/index.tsx:190-194 | onClose reports false; SwipeableItem clears the direction, SwipeRow keeps it (index.tsx:137-139); nothing else changes |
| Machine.FrameHandler | src/index.tsx:297-306 | a handler runs exactly when the animation runs in the frame and the spring finishes; it is onClose exactly when the spring also leaves the row at zero |
| Machine.SpringStep | src/index.tsx:296-309 | with the clock stopped nothing changes; while it runs the row moves to the spring's position; the clock stops exactly when the spring finishes, `finished` is reset, and exactly one report is made: false at zero, the direction otherwise; only SwipeableItem's onClose clears the direction; target, flags, prevTranslate, panX, gesture state and the onChange memories are unchanged |
| Machine.Frame | src/index.tsx:263-310 | a frame lowers every flag and aims the spring as the flags say; while the animation runs it moves the row and stops the clock on finish; it makes at most one report: false when the spring ends at zero, the direction just tracked otherwise; only SwipeableItem clears the direction on close; the onChange memories are those the watchers left, and the gesture fields are unchanged |
| Machine.InitInv | src/index.tsx:88-101 | the initial state keeps the invariant |
| Machine.StateChangeInv | src/index.tsx:198-220 | a gesture-state change keeps the invariant |
| Machine.PanInv | src/index.tsx:233-261 | a pan sample keeps the invariant |
| Machine.RequestInv | src/index.tsx:163-183 | raising a request flag keeps the invariant |
| Machine.FrameInv | src/index.tsx:263-310 | a frame keeps the invariant (target a resting position, finished down, direction agreeing with or cleared against the watchers' memories) |
| Machine.StepInv | src/index.tsx:163-310 | every event keeps the invariant |
| Machine.RunInv | src/index.tsx:163-310 | every sequence of events keeps the invariant |
| Machine.ReachableTargetIsRestingPosition | src/index.tsx:207-285 | in every reachable state of either revision, the spring target is one of the three resting positions |
| Machine.LegacyOpenReportsSide | index.tsx:133-135 | in SwipeRow, a frame that ends the animation away from zero reports the side the row was on |
| Machine.CurrentOpenReportsSideOrFalse | src/index.tsx:185-194 | in SwipeableItem, such a frame reports the side the row was on, or false |
| Machine.DragThroughCloseReports | src/index.tsx:190-194 | on the drag, close, drag, release trace both revisions end at -100; SwipeRow reports false then left, and SwipeableItem reports false twice |
| Item.OpenPromise | src/index.tsx:166-173 | open first settles the previous open promise, then stores a fresh one; the close resolver is untouched, and nothing else is settled |
| Item.ClosePromise | src/index.tsx:177-183 | close first settles the previous close promise, then stores a fresh one; the open resolver is untouched, and nothing else is settled |
| Item.Resolve | src/index.tsx:169 | calling a stored resolver settles exactly its promise and changes nothing else; the initial no-op resolver changes nothing |
| Item.ResolveTwice | src/index.tsx:185-188 | calling a resolver a second time (onOpen or onClose, then the next open or close) changes nothing |
| Item.SettleFrame | src/index.tsx:185-194 | onOpen settles the stored open promise, onClose the stored close promise; resolvers are not replaced |
| Item.OpenPromiseAccounted | src/index.tsx:166-173 | open leaves no promise both unsettled and unreachable |
| Item.ClosePromiseAccounted | src/index.tsx:177-183 | close leaves no promise both unsettled and unreachable |
| Item.SettleFrameAccounted | src/index.tsx:185-194 | completion handlers leave no promise both unsettled and unreachable |
| Item.ItemStepAccounted | src/index.tsx:163-194 | every event leaves no promise both unsettled and unreachable |
| Item.ItemRunAccounted | src/index.tsx:163-194 | every sequence of events leaves no promise both unsettled and unreachable |
| Item.ItemRunRow | src/index.tsx:163-310 | the row part of a SwipeableItem run is the Current machine's run |
| Item.PendingAreLatest | src/index.tsx:163-183 | in every reachable state, every unsettled promise is the latest open or the latest close promise |
| Item.OpenThenOpenOtherSide | src/index.tsx:166-173 | open left then open right: the first promise is settled and the second is pending; without a close request the next frame aims at the right side |
| Item.SettlingAtZero | src/index.tsx:190-194 | an animation finishing at zero reports false (again, if so), clears the direction, stops the clock and settles exactly the close promise |
| Item.SwipeableItem.constructor | src/index.tsx:163-176 | a new item is at rest with no request, no memories and only no-op resolvers, and is valid |
| Item.SwipeableItem.OnHandlerStateChange | src/index.tsx:198-220 | the item moves to the machine's successor state and stays valid |
| Item.SwipeableItem.OnPanEvent | src/index.tsx:233-261 | the item moves to the machine's successor state and stays valid |
| Item.SwipeableItem.CallResolver | src/index.tsx:169 | calling a stored resolver settles its promise and changes nothing else |
| Item.SwipeableItem.Open | src/index.tsx:166-173 | returns the fresh promise, which is pending and stored; the previous open promise is settled; the side's flag is raised; stays valid |
| Item.SwipeableItem.Close | src/index.tsx:177-183 | returns the fresh promise, which is pending and stored; the previous close promise is settled; the close flag is raised; stays valid |
| Item.SwipeableItem.OnOpen | src/index.tsx:185-188 | settles the open promise and reports the direction |
| Item.SwipeableItem.OnClose | src/index.tsx:190-194 | settles the close promise, clears the direction and reports false |
| Item.SwipeableItem.ConsumeFlags | src/index.tsx:265-285 | the flag blocks, as Machine.ConsumeFlags |
| Item.SwipeableItem.ConsumeOpenLeft | src/index.tsx:265-272 | the openLeft block |
| Item.SwipeableItem.ConsumeOpenRight | src/index.tsx:273-280 | the openRight block |
| Item.SwipeableItem.ConsumeClose | src/index.tsx:281-285 | the close block |
| Item.SwipeableItem.WatchSwipingLeft | src/index.tsx:286-289 | the swipingLeft watcher, as Machine.WatchSwipingLeft |
| Item.SwipeableItem.WatchSwipingRight | src/index.tsx:290-293 | the swipingRight watcher, as Machine.WatchSwipingRight |
| Item.SwipeableItem.WatchIsSwiping | src/index.tsx:294 | the isSwiping watcher, as Machine.WatchIsSwiping |
| Item.SwipeableItem.SpringStep | src/index.tsx:296-309 | the clock block; settles the promise of whichever handler runs |
| Item.SwipeableItem.RunCode | src/index.tsx:263-310 | one frame, as Machine.Frame, settling the handler's promise; stays valid |
| Row.SwipeRow.constructor | index.tsx:84-131 | a new row is at rest with no request and no memories, and is valid |
| Row.SwipeRow.OnHandlerStateChange | index.tsx:143-165 | the row moves to the machine's successor state and stays valid |
| Row.SwipeRow.OnPanEvent | index.tsx:171-188 | the row moves to the Legacy machine's successor state, with ungated bounds, and stays valid |
| Row.SwipeRow.Open | index.tsx:125-128 | raises the flag of the requested side only; stays valid |
| Row.SwipeRow.Close | index.tsx:131 | raises the close flag only; stays valid |
| Row.SwipeRow.OnOpen | index.tsx:133-135 | reports the direction |
| Row.SwipeRow.OnClose | index.tsx:137-139 | reports false and keeps the direction |
| Row.SwipeRow.ConsumeFlags | index.tsx:192-206 | the flag blocks, as Machine.ConsumeFlags |
| Row.SwipeRow.ConsumeOpenLeft | index.tsx:192-196 | the openLeft block |
| Row.SwipeRow.ConsumeOpenRight | index.tsx:197-201 | the openRight block |
| Row.SwipeRow.ConsumeClose | index.tsx:202-206 | the close block |
| Row.SwipeRow.WatchSwipingLeft | index.tsx:207 | the swipingLeft watcher |
| Row.SwipeRow.WatchSwipingRight | index.tsx:208 | the swipingRight watcher |
| Row.SwipeRow.WatchIsSwiping | index.tsx:209 | the isSwiping watcher |
| Row.SwipeRow.SpringStep | index.tsx:211-224 | the clock block, with onClose keeping the direction |
| Row.SwipeRow.RunCode | index.tsx:190-225 | one frame, as Machine.Frame of the Legacy revision; stays valid |

## Left out

- Spring physics (`spring`, `betterSpring`, `springFill` in src/procs.tsx) is abstracted: a frame receives the position one spring step leaves and whether the spring reports finished.
- `animationConfig` values (damping, mass, stiffness, rest thresholds) only feed the spring and are not modelled.
- Rendering is not modelled: JSX, styles, opacity and pointer-event wiring, the gesture handler's props and the `activeOffsetX` computation.
- The `proc` fallback stub and its `console.warn` in src/procs.tsx are library-version plumbing, not modelled.
- Reanimated's `call` bridge and React's asynchronous `setState` are modelled as taking effect at once, within the frame that triggers them.
- JavaScript promises are modelled by numbered ids and a set of settled ids; the `then` callbacks of callers are not modelled.
- Numbers are reals: NaN and Infinity are not modelled. `Nodes.PercentOpenLeft` and `Nodes.PercentOpenRight` therefore require a non-zero width on the side the row is swiping toward, where the code would divide by zero.
- `cond` with no else branch (the percent-open nodes) is taken to yield 0, as Reanimated does.
- The gesture's velocity, and snapping among several points, are not modelled: the code does not use them.
- The Reanimated `onChange` memory is modelled as firing on a node's first evaluation.
- When `runCode` is evaluated is not modelled: a frame (`AnimationFrame`) may occur between any two events, or not at all. This admits more runs than Reanimated's schedule, which re-evaluates `runCode` when one of its inputs changes or the clock ticks, so the lemmas over all runs hold a fortiori, and a trace lemma shows a run the model admits, not necessarily one Reanimated produces.
