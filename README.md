# MotionRail, modelled in Dafny

MotionRail is a horizontal carousel engine for the browser. It turns a
scrollable element into a rail of items laid out by container queries. Its
parts are:

- drag navigation with momentum and snapping;
- page-wise `next`/`prev`, and `scrollToIndex`;
- autoplay that pauses on interaction and resumes after a delay;
- edge-visibility tracking through an intersection observer;
- a small extension protocol (`onInit`, `onUpdate`, `onDestroy`).

This project models the engine class `MotionRail`, the standalone utilities
(`setBreakPoints`, `animateScroll`), the arrows extension and the dots
extension, and proves properties of them.

**How the browser is represented.** The browser is state held as data:

- the grid's children, each with an identity and an `offsetLeft`;
- the scrollable's widths, its `scrollLeft` and its inline container name;
- the style elements appended to the document head, each as its list of rules;
- the smooth `scrollTo` requests;
- the host's timers: live interval and timeout handles, and the next handle;
- the momentum animations and their pending frames;
- a log of every call made on an extension and on `onChange`.

**How the code is modelled.**

- **Host callbacks** are methods of the class, with the preconditions the host guarantees. These are the pointer handlers, the two observer callbacks, the interval and timeout callbacks, and the animation frames.
- **`MotionRail`** is a `class` whose methods update its fields in place. Each method states its whole new state. A class invariant `Valid` ties the state together:
  - the snap index, the visible set and the observer agree with the items;
  - every stored timer handle is live;
  - only the animation `cancelScroll` holds can still move the rail;
  - a drag is on exactly while a pointer is captured.
- **Loops** of the source are `for` loops with invariants, proved against specification functions. These are the breakpoint `forEach`, the extension `forEach`, the nearest-snap-point scan, the observer's entry loop and the dots loops.
  - The specification functions are `Rules`, `Dispatched`, `Snap.IsNearest`, `Visibility.Reduce` and `Dots.NewDot`.
  - The properties the source relies on are lemmas about those functions: sortedness, set semantics, flag agreement, policy of the generated rules, and ordering of hook calls.
- **Extensions** are classes holding their buttons as records. A click is the `Command` (`Next`, `Prev`, `ScrollToIndex(i)`) that the handler issues. `MotionRail.Perform` runs a command on the engine.

**Behaviour kept as written:**

- An empty breakpoint list yields no layout rule at all, because `||` keeps `[]`.
- The `containerName` option is never read.
- With a single item, the `else if` never sets `isLastItemVisible`.
- `play` overwrites the stored interval handle without clearing it.
- `onScrollEnd` arms a resume timeout without clearing the previous one.
- `destroy` may run twice, calling `onDestroy` each time.
- A `next` during a momentum animation therefore leaves a resume timeout that nothing holds. The two `play` calls it and `onScrollEnd` later trigger leave an interval running after `destroy`. `Engine.OrphanedIntervalOutlivesDestroy` exhibits this sequence.
- `handlePointerDown` ends with a `clearTimeout` that can never run. With a drag on, `pause` has just cleared the resume timeout and armed none, so that branch is proved unreachable.

**Where the model follows the code rather than the declarations.** The options the
constructor reads (`resumeDelay`, `onChange`, `extensions`) follow `src/lib/main.ts`.
`src/lib/types.ts` in this version declares a differently named options type
that `main.ts` does not use.

## Model

| member | source | states |
|---|---|---|
| Layout.Columns | src/lib/main.ts:132 | `bp.columns \|\| 1`: a missing or zero column count becomes 1, any other is kept |
| Layout.Gap | src/lib/main.ts:133 | `bp.gap \|\| "0px"`: a missing or empty gap becomes "0px", any other is kept |
| Layout.SmallestWidth | src/lib/main.ts:124-128 | present exactly when some breakpoint has a truthy width, and then the least such width, attained by one of them |
| Layout.RandomContainerName | src/lib/utils.ts:3-5 | the name is `motion-rail-` (12 characters) followed by exactly the random suffix |
| Layout.RandomContainerNameInjective | src/lib/utils.ts:3-5 | two names are equal exactly when their suffixes are, and no name is empty |
| Layout.BuildRules | src/lib/main.ts:131-154 | the `forEach` accumulates exactly the rule list `Rules` defines, one per breakpoint in order |
| Layout.SetBreakPoints | src/lib/utils.ts:7-63 | nothing without a `.motion-rail-container`; otherwise the inline container name, or a fresh random one when unset, and one rule per breakpoint repeating `length` columns |
| Layout.SmallestWidthIsTruthy | src/lib/main.ts:137-139 | the smallest width is never 0, so `else if (smallestWidth)` is a presence test |
| Layout.RulesPolicy | src/lib/main.ts:136-144 | rule i is scoped to the container with the item count; a width gives `min-width: width`; no width gives `max-width` one below the least width of the list, or `min-width: 0` when no breakpoint has a width |
| Layout.DefaultRuleDisjointFromWidthRules | src/lib/main.ts:136-144 | a rule from a breakpoint without a width never matches together with one from a breakpoint with a width |
| Layout.EveryWidthMatched | src/lib/main.ts:136-144 | with a width-less breakpoint present, every non-negative whole-pixel width is matched by some rule |
| Snap.Abs | src/lib/main.ts:267 | the absolute value: non-negative, equal to the argument or its negation |
| Snap.SnapPoints | src/lib/main.ts:250-260 | one point per item, each its offset or the largest scroll position, whichever is smaller; within [0, max] for non-negative offsets and max; sorted offsets give sorted points |
| Snap.NearestIsUnique | src/lib/main.ts:262-275 | the scan's answer is a function of the points and the position |
| Snap.FindNearest | src/lib/main.ts:262-275 | the linear scan returns the first point of minimal distance, or 0 for an empty list; for a non-empty list the answer is one of the points |
| Paging.PageTargetInRange | src/lib/main.ts:402-443 | with visible indexes in range, the page target always indexes the snap points, so the `scrollTo` target exists |
| Paging.ForwardWrapOrClamp | src/lib/main.ts:411-428 | forward past the second-to-last point wraps to 0 when the last item is visible and clamps to the last point otherwise; before that it lands after the last visible item, and after every visible item when they are sorted |
| Paging.BackwardWrapOrClamp | src/lib/main.ts:429-441 | backward at or before 0 wraps to the last point when the first item is visible and goes to 0 otherwise; left-to-right, it lands `count` before the first visible item, and before every visible item when they are sorted |
| Paging.ForwardFromLastPageWraps | src/lib/main.ts:418-422 | from the last page with the last item visible, the next forward move returns to item 0 |
| Visibility.IndexOf | src/lib/main.ts:203 | the first position holding the target, or -1 exactly when no item is the target |
| Visibility.Without | src/lib/main.ts:214-215 | the elements other than x, all of them; unchanged exactly when x is absent, shorter when present |
| Visibility.SortIsSortedPermutation | src/lib/main.ts:208-209 | the numeric sort yields a sorted permutation of its input |
| Visibility.StepPreservesWellFormed | src/lib/main.ts:202-235 | one entry keeps the visible set strictly ascending and within the item indexes, and never touches the total |
| Visibility.ReducePreservesWellFormed | src/lib/main.ts:199-235 | the same for a whole batch of entries |
| Visibility.StepChangedIff | src/lib/main.ts:206-234 | an entry sets `stateChanged` exactly when it changes the state |
| Visibility.UnchangedBatchIsIdentity | src/lib/main.ts:199-239 | a batch that reports no change leaves the state as it was, so no notification is missed |
| Visibility.ForeignEntrySkipped | src/lib/main.ts:203-204 | an entry whose target is not an item changes nothing |
| Visibility.ReduceMembership | src/lib/main.ts:206-219 | an index is visible after a batch iff the last entry about it was intersecting, or, with no such entry, iff it was visible before |
| Visibility.ReduceFirstFlag | src/lib/main.ts:221-227 | the first-item flag follows the last entry about the first item |
| Visibility.ReduceLastFlag | src/lib/main.ts:228-233 | with two or more distinct items, the last-item flag follows the last entry about the last item |
| Visibility.SingleItemKeepsLastFlag | src/lib/main.ts:222-233 | with one item the `else if` never reaches the last-item flag |
| Visibility.ReduceKeepsFlagsAgreeing | src/lib/main.ts:199-235 | after a batch the edge flags agree with membership of the first and last index (the last one only with two items or more) |
| Hooks.DispatchedExactlyInOrder | src/lib/main.ts:20-24 | the hook `forEach` calls exactly the extensions defining the hook, each once, in registration order, with one snapshot |
| Hooks.NotificationShape | src/lib/main.ts:18-29 | a notification calls `onUpdate` on every extension defining it and ends with `onChange` when one is given; it is empty only when neither exists |
| ScrollPosition.Clamp | src/lib/main.ts:168-170 | a written `scrollLeft` is kept between 0 and `scrollWidth - clientWidth` (0 when that is negative), unchanged when already within it |
| ScrollPosition.ClampIdempotent | src/lib/main.ts:164-170 | writing back a position that was read keeps it unchanged |
| Easing.EaseOutCubic | src/lib/utils.ts:78-80 | the easing maps 0 to 0 and 1 to 1 |
| Easing.Progress | src/lib/utils.ts:86 | for every duration: finite and at most 1 except `0 / 0` (NaN) and a negative elapsed time over 0 (-Infinity); a positive duration gives exactly 1 once it has elapsed and is non-negative from the start; a zero duration gives 1 for any later frame; a negative one gives 1 only at or before `duration` and at most 0 from the start on |
| Easing.EaseOutCubicMonotone | src/lib/main.ts:383 | on [0, 1] the easing stays in [0, 1] and never decreases |
| Easing.FinalFrameReachesTarget | src/lib/main.ts:381-385 | once the duration has elapsed the frame sets the position exactly to the target |
| Easing.FinishedFrameAtTarget | src/lib/main.ts:378-394 | with the momentum animation's positive duration the progress is always finite, and a frame that stops the animation writes exactly the target |
| Easing.FrameBetweenStartAndTarget | src/lib/utils.ts:85-89 | every frame from the start on lies between the start and the target |
| Easing.NegativeDurationNeverFinishes | src/lib/utils.ts:84-96 | with a negative duration every frame from the start on asks for another frame, and its position is on the far side of the start from the target |
| AnimateScroll.ResolvedDuration | src/lib/utils.ts:68 | a left-out duration is 300; any given one, zero and negative included, is used as given |
| AnimateScroll.ScrollAnimation.constructor | src/lib/utils.ts:71-99 | for any duration: captures the start position, the element's scroll range, the distance and the start time and requests the first frame |
| AnimateScroll.ScrollAnimation.Frame | src/lib/utils.ts:82-97 | nothing once cancelled; else the eased position, kept within the scroll range (a NaN or an infinity becomes 0), then another frame while `progress < 1` (false for NaN) or `onComplete`; with a non-negative duration, once it has elapsed and time has advanced, the element is at the target as far as its range allows; with a negative duration a frame from the start on always asks for another |
| AnimateScroll.ScrollAnimation.Cancel | src/lib/utils.ts:102-111 | effective once: withdraws the pending frame and calls `onComplete` even so; a second call does nothing |
| AnimateScroll.CompletedThenCancelled | src/lib/utils.ts:91-111 | an animation with a non-negative duration that ran to the end and is then cancelled calls `onComplete` twice and ends at the target, as far as the scroll range allows |
| AnimateScroll.NegativeDurationKeepsRunning | src/lib/utils.ts:84-99 | with a negative duration, a frame at or after the start leaves a frame pending and `onComplete` uncalled |
| AnimateScroll.ZeroDurationFrameAtStart | src/lib/utils.ts:84-96 | with a zero duration, a frame at the start time itself writes NaN, which leaves the element at 0, and completes |
| AnimateScroll.CancelledTwice | src/lib/utils.ts:102-111 | cancelling twice calls `onComplete` once, leaves no frame pending and the element where it was |
| Decimal.ToDecimal | old/src/extensions/dots/main.ts:41 | `(i + 1).toString()`: at least one digit, all digits, no leading zero |
| Decimal.ValueOfToDecimal | old/src/extensions/dots/main.ts:38-41 | reading the decimal text of n gives back n |
| Decimal.ToDecimalInjective | old/src/extensions/dots/main.ts:38-41 | different numbers have different decimal texts |
| Engine.Timers.SetInterval | src/lib/main.ts:447-449 | `setInterval` adds a fresh handle, never live before, and keeps the timers valid |
| Engine.Timers.SetTimeout | src/lib/main.ts:475-478 | `setTimeout` adds a fresh handle, never live before, and keeps the timers valid |
| Engine.Timers.ClearInterval | src/lib/main.ts:463-466 | `clearInterval` retires the held interval, if any, and nothing else |
| Engine.Timers.ClearTimeout | src/lib/main.ts:468-471 | `clearTimeout` retires the held timeout, if any, and nothing else |
| Engine.DispatchCalls | src/lib/main.ts:90-94 | the extension loop emits exactly `Dispatched` for the hook |
| Engine.ResolveOptions | src/lib/main.ts:56-58 | `autoplay`/`rtl` are true only when given true; zero or missing delays become 3000 and 4000; missing breakpoints become one column with no gap, given ones are kept as they are |
| Engine.BreakpointDefaults | src/lib/main.ts:58 | the default breakpoints give one rule matching every width with one column and no gap; an empty list gives no rule |
| Engine.MomentumTime | src/lib/main.ts:331-337 | the momentum time lies in [100, 200]: 100 at rest, 200 from speed 4 on |
| Engine.MomentumTimeMonotone | src/lib/main.ts:334-337 | a faster release never gets a shorter momentum animation |
| Engine.CancelHandleSetsOneFlag | src/lib/main.ts:397-399 | the cancel closure sets only its own animation's flag |
| Engine.WithOffsets | src/lib/main.ts:183-185 | after a layout change the items are the same elements in the same order, at the new offsets |
| Engine.MotionRail.constructor | src/lib/main.ts:55-95 | options resolved, extensions `\|\| []`; container named; one style element of rules for the item count; scroll at 0; listeners on; snap index built; observers per host; interval 1 under autoplay; `onInit` per defining extension; invariant established |
| Engine.MotionRail.GetState | src/lib/main.ts:488-493 | the snapshot counts the items and is well formed, with flags agreeing with its visible set |
| Engine.MotionRail.GetOptions | src/lib/main.ts:495-503 | the options with their defaults resolved |
| Engine.MotionRail.SetBreakPoints | src/lib/main.ts:105-163 | names the container only when unnamed, and appends exactly the rules for the current breakpoints and item count |
| Engine.MotionRail.CacheSnapPoints | src/lib/main.ts:250-260 | the snap index becomes the clamped offsets of the current items |
| Engine.MotionRail.ObserveEdgeItems | src/lib/main.ts:190-198 | observes the current items only when the host has an observer and there are items; otherwise nothing changes |
| Engine.MotionRail.DispatchHook | src/lib/main.ts:537-541 | appends exactly the hook calls `Dispatched` defines |
| Engine.MotionRail.HandleStateChange | src/lib/main.ts:18-29 | appends exactly one notification with the current snapshot |
| Engine.MotionRail.ApplyEntry | src/lib/main.ts:202-235 | one entry updates the state and reports a change exactly as one step of `Visibility.Reduce`, whose set and flag properties are proved there |
| Engine.MotionRail.OnIntersect | src/lib/main.ts:199-239 | the state becomes the batch folded over it; one notification follows exactly when something changed; the invariant is kept |
| Engine.MotionRail.OnResize | src/lib/main.ts:183-185 | new offsets and widths for the same items, the snap index rebuilt from them, and the scroll position kept within the new range; nothing else changes |
| Engine.MotionRail.Play | src/lib/main.ts:446-450 | a fresh interval is started and stored; the one stored before stays live |
| Engine.MotionRail.ClearAutoplayInterval | src/lib/main.ts:463-466 | the stored interval is retired and forgotten |
| Engine.MotionRail.ClearResumeTimeout | src/lib/main.ts:468-471 | the stored resume timeout is retired and forgotten |
| Engine.MotionRail.ArmResumeTimeout | src/lib/main.ts:475-478 | a fresh timeout is armed and stored over the previous handle |
| Engine.MotionRail.CancelMomentum | src/lib/main.ts:299-301 | the held animation is flagged cancelled, after which no animation can move the rail |
| Engine.MotionRail.Pause | src/lib/main.ts:462-479 | both stored timers are retired; a resume timeout is armed exactly when autoplay is on and no drag is on |
| Engine.MotionRail.PageRequest | src/lib/main.ts:402-443 | no request without visible items, else the snap point of the page target, which exists |
| Engine.MotionRail.ScrollByPage | src/lib/main.ts:402-444 | the branchy computation requests exactly `PageRequest` |
| Engine.MotionRail.Next | src/lib/main.ts:452-455 | pauses, then requests a forward page |
| Engine.MotionRail.Prev | src/lib/main.ts:457-460 | pauses, then requests a backward page |
| Engine.MotionRail.ScrollToIndex | src/lib/main.ts:481-486 | pauses, then requests the item's snap point only when the index is in range |
| Engine.MotionRail.CommandRequest | src/lib/main.ts:452-486 | at most one request, always to a snap point; `Next`/`Prev` request one exactly when some item is visible; `ScrollToIndex` exactly when the index has a snap point, and then that point |
| Engine.MotionRail.Perform | src/lib/main.ts:452-486 | a command pauses and requests exactly its `CommandRequest` |
| Engine.MotionRail.IntervalTick | src/lib/main.ts:447-449 | each autoplay tick requests one forward page |
| Engine.MotionRail.ResumeTimeout | src/lib/main.ts:475-478 | the fired timeout is retired, autoplay restarts with a fresh interval, and the timeout handle is forgotten |
| Engine.MotionRail.PointerDown | src/lib/main.ts:284-303 | ignored while a pointer is captured; otherwise records the drag, retires both timers, arms none, and cancels the momentum |
| Engine.MotionRail.PointerMove | src/lib/main.ts:305-320 | only for the dragging pointer: the scroll follows the pointer from the drag start, kept within the scroll range; velocity and last sample update only when time advanced |
| Engine.MotionRail.ScrollMoved | src/lib/main.ts:164-166 | a position the browser moves to by itself is what `getLogicalScroll` reads next, within the scroll range |
| Engine.MotionRail.AnimateLogicalScroll | src/lib/main.ts:369-400 | a fresh animation from the current scroll to the target, its first frame pending, under a new handle |
| Engine.MotionRail.PointerUp | src/lib/main.ts:322-367 | only for the dragging pointer: ends the drag, cancels the old momentum, animates from the kept scroll position under a fresh handle to the snap point nearest the projected release, and resets the velocity |
| Engine.MotionRail.OnScrollEnd | src/lib/main.ts:349-358 | forgets the cancel closure; under autoplay arms a resume timeout over the stored handle |
| Engine.MotionRail.AnimationFrame | src/lib/main.ts:378-394 | a cancelled animation's frame changes nothing; otherwise a finite progress and the eased position kept within the scroll range, then another frame or, at the end, the target position (as far as the range allows) and `onScrollEnd` |
| Engine.MotionRail.Reload | src/lib/main.ts:505-530 | `update` before its notification: new items, a reset state, a new style element, a rebuilt snap index, a new observer and the scroll position kept within the new range; the item invariant holds |
| Engine.MotionRail.Update | src/lib/main.ts:505-533 | `Reload`'s state plus exactly one notification with the reset snapshot; the invariant holds |
| Engine.MotionRail.Destroy | src/lib/main.ts:535-572 | `onDestroy` per defining extension with the current snapshot; the held interval and timeout retired; the momentum cancelled; observers and listeners gone |
| Engine.Create | src/lib/main.ts:62-70 | the rail is built exactly when the scrollable exists, else the constructor's error message |
| Engine.AutoplayRail | src/lib/main.ts:55-95 | a fresh two-item autoplay rail runs interval 1, with no drag and no animation |
| Engine.DraggedAndReleased | src/lib/main.ts:284-367 | after a drag and its release autoplay is paused with no timer held, and momentum animation 0 runs for the base time |
| Engine.DraggedPastTheEnd | src/lib/main.ts:290-320 | a drag past the end of the scroll range leaves the scroll at the end, 600, while the velocity follows the pointer |
| Engine.ReleasedPastTheEnd | src/lib/main.ts:322-367 | released there, the momentum projects from the kept 600, not from where the pointer went, and the rail animates to the snap point 300 |
| Engine.OrphanedResumeTimeout | src/lib/main.ts:349-358 | a `next` during a momentum animation leaves resume timeout 2 live while the rail holds timeout 3 |
| Engine.OrphanedIntervalOutlivesDestroy | src/lib/main.ts:446-450 | after both resume timeouts fire and `destroy` runs, interval 4 is still live and the rail holds no interval |
| Arrows.ArrowsOppose | extensions/arrows/src/arrows.ts:34-43 | the two arrows always page in opposite directions, and right-to-left swaps them |
| Arrows.ShownIffSomeItemHidden | extensions/arrows/src/arrows.ts:61-72 | for a well-formed state the arrows are shown exactly when some item is not visible |
| Arrows.ArrowsExtension.constructor | extensions/arrows/src/arrows.ts:5-19 | the parameters with their defaults: the two chevron icons, `loop` on, `log` off; no arrow yet |
| Arrows.ArrowsExtension.OnInit | extensions/arrows/src/arrows.ts:23-47 | nothing for an empty rail; otherwise both arrows attached, left paging back and right forward, swapped right-to-left |
| Arrows.ArrowsExtension.OnUpdate | extensions/arrows/src/arrows.ts:48-77 | nothing without both arrows; without `loop` each arrow is disabled exactly at its edge; both hidden unless shown; the state is logged when asked |
| Arrows.ArrowsExtension.OnDestroy | extensions/arrows/src/arrows.ts:78-81 | whichever arrows exist leave the document; the references stay |
| Arrows.EmptyRailHasNoArrows | extensions/arrows/src/arrows.ts:24-28 | on an empty rail no arrow is created and later updates change nothing |
| Arrows.DisabledTracksEdges | extensions/arrows/src/arrows.ts:56-72 | with `loop` off, after an update each arrow is disabled exactly while its edge item is visible |
| Dots.LabelsDistinct | old/src/extensions/dots/main.ts:38 | no two dots share an `aria-label` |
| Dots.Centring | old/src/extensions/dots/main.ts:74-88 | the row is centred on the first visible item's dot exactly when that dot exists; it is a visible item's dot, and the leftmost one when the indexes are sorted |
| Dots.DotsExtension.constructor | old/src/extensions/dots/main.ts:4-17 | the parameters with their defaults: no index, 34 px dots, 12 px text, no log; no container and no dot |
| Dots.DotsExtension.OnInit | old/src/extensions/dots/main.ts:21-53 | nothing for an empty rail; otherwise a container and one dot per item, dot i labelled `Go to item i+1`, showing i+1 when asked, scrolling to item i |
| Dots.DotsExtension.OnUpdate | old/src/extensions/dots/main.ts:54-93 | nothing before the container exists; the row is hidden for an empty rail; otherwise exactly the dots of visible items are active, the row is centred on an active dot and the state logged when asked |
| Dots.DotsExtension.OnDestroy | old/src/extensions/dots/main.ts:94-97 | the container leaves the document and the dot list is emptied |
| Dots.EmptyRailHasNoDots | old/src/extensions/dots/main.ts:24-26 | on an empty rail no dot is created and an update changes nothing |
| Dots.InitThenUpdate | old/src/extensions/dots/main.ts:35-72 | after `onInit` and `onUpdate`, dot i scrolls to item i and is active exactly when item i is visible |
| Dots.DestroyThenUpdate | old/src/extensions/dots/main.ts:94-97 | after `onDestroy` no dot remains, even after a later update |

## Left out

- Floating point: positions, times and velocities are real numbers, and `Math.sqrt` is supplied by the caller as `speedRoot`.
- `Math.random`: the container-name suffix is a parameter.
- The CSS text: each rule is a record of its container, condition, repeat count, column count and gap. The `calc` item width and the selector are left out, since the record determines them. This also covers the selector difference between the engine (`[data-motion-rail-grid]`) and the utilities (`.motion-rail-container`).
- Style writes with no effect on the modelled state: `userSelect` and `scrollSnapType`.
- The pointer capture calls and `preventDefault`.
- The browser's own work: timers, animation frames and observer callbacks become method calls whose preconditions the host guarantees.
- Which callback the host runs next, and when, is not modelled.
- `scrollTo` with smooth behaviour: the requested targets are recorded. The browser's smooth motion towards them is not modelled step by step; a position it reaches is fed in through `Engine.MotionRail.ScrollMoved`.
- `Engine.MotionRail.SetBreakPoints`: the early return when the scrollable is missing is not modelled. The constructor has already thrown in that case (src/lib/main.ts:62-69).
- `getLogicalScroll`, `setLogicalScroll`, `scrollToLogical` and `attachPointerEvents`: these are reads and writes of `scrollLeft`, `scrollRequests` and `listening`. Every write of `scrollLeft` is kept within 0 and `scrollWidth - clientWidth`, as the browser does (`ScrollPosition.Clamp`).
- A scrollable laid out right to left, whose `scrollLeft` runs from a negative value up to 0, is not modelled: the scroll range starts at 0.
- `Engine.MotionRail.OnResize`: the children change only between `update` calls. A resize after the children changed but before `update()` re-queries the new children in the source and can change the number of snap points; the model keeps the item list and updates only offsets and widths.
- `AnimateScroll.ScrollAnimation.constructor`: a duration that is itself NaN or infinite is not modelled; durations are real numbers.
- `observeResize`: modelled as the flag `resizeObserving`, set from the host's capabilities.
- `Engine.MotionRail.Update`: split into `Reload` and one notification. This is for proof size only, since `Reload` is exactly the source's steps before `handleStateChange`.
- Extension hooks are recorded as calls in the log. What each one does is modelled separately by the `Arrows` and `Dots` classes, driven with the same snapshot. Their clicks act on the rail through `MotionRail.Perform`.
- `console.log` in the extensions: recorded as the list of logged states.
- `Dots.DotsExtension.OnUpdate`: the centring scroll offset is left out, because it depends on rendered widths. Only which dot the row is centred on is recorded.
- The dots' `--dot-size` and `--dot-font-size` custom properties are kept as numbers, without their `px` suffix.
- The dots and arrow elements' classes and `innerHTML` are strings. Appending to the rail's element is the `attached` flag.
- The framework adapters (React, Solid, Qwik, Lit) and the logger and thumbnails extensions are not part of this model.
