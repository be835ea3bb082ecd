/**
 * The carousel engine, class `MotionRail`: options resolution, the layout
 * rules, the snap index, edge-visibility tracking, pointer dragging with
 * momentum, page navigation, autoplay with pause/resume, and the extension
 * lifecycle.
 *
 * The browser is part of the state as data: the grid's children and the
 * scrollable's geometry, its `scrollLeft`, its inline container name, the
 * style elements appended to the document head, the smooth-scroll requests
 * made through `scrollTo`, the host's timers and animation frames, and a log
 * of the calls made on extensions and on `onChange`. Callbacks the host
 * delivers (pointer events, observer callbacks, timer and frame callbacks)
 * are methods of the class.
 */
module Engine {
  import opened Wrappers
  import opened Types
  import opened Layout
  import Snap
  import opened Paging
  import opened Visibility
  import opened Hooks
  import opened Easing
  import ScrollPosition

  /** A host timer handle; `setInterval` and `setTimeout` never hand out 0. */
  type TimerId = x: int | x >= 1 witness 1

  /** The host's timers: the live interval and timeout handles and the next handle it hands out. */
  datatype Timers = Timers(intervals: set<TimerId>, timeouts: set<TimerId>, nextId: TimerId) {
    ghost predicate Valid() {
      forall t :: (t in intervals || t in timeouts) ==> t < nextId
    }

    /** `setInterval`: a fresh live interval. */
    function SetInterval(): (r: Timers)
      ensures r.intervals == intervals + {nextId} && r.timeouts == timeouts && r.nextId == nextId + 1
      ensures Valid() ==> r.Valid() && nextId !in intervals && nextId !in timeouts
    {
      Timers(intervals + {nextId}, timeouts, nextId + 1)
    }

    /** `setTimeout`: a fresh live timeout. */
    function SetTimeout(): (r: Timers)
      ensures r.intervals == intervals && r.timeouts == timeouts + {nextId} && r.nextId == nextId + 1
      ensures Valid() ==> r.Valid() && nextId !in intervals && nextId !in timeouts
    {
      Timers(intervals, timeouts + {nextId}, nextId + 1)
    }

    /** `clearInterval` on an optional handle. */
    function ClearInterval(h: Option<TimerId>): (r: Timers)
      ensures r.intervals == intervals - Handles(h) && r.timeouts == timeouts && r.nextId == nextId
      ensures Valid() ==> r.Valid()
    {
      this.(intervals := intervals - Handles(h))
    }

    /** `clearTimeout` on an optional handle. */
    function ClearTimeout(h: Option<TimerId>): (r: Timers)
      ensures r.intervals == intervals && r.timeouts == timeouts - Handles(h) && r.nextId == nextId
      ensures Valid() ==> r.Valid()
    {
      this.(timeouts := timeouts - Handles(h))
    }
  }

  /**
   * A momentum animation of `animateLogicalScroll`: its start position, the
   * snap point it heads for, its duration and start time, the flag its cancel
   * closure sets, and whether a frame callback of it is pending.
   */
  datatype Anim = Anim(startLogical: real, target: int, duration: real, startTime: real, cancelled: bool, scheduled: bool)

  /** The fields of a pointer event the handlers read. */
  datatype PointerEvent = PointerEvent(pointerId: int, clientX: real, timeStamp: real)

  /** Whether the host defines `ResizeObserver` and `IntersectionObserver`. */
  datatype Capabilities = Capabilities(resizeObserver: bool, intersectionObserver: bool)

  /**
   * The root element's subtree as the constructor reads it: the scrollable's
   * inline `container-name` ("" when unset), the grid's children and the
   * scrollable's `scrollWidth` and `clientWidth`.
   */
  datatype Dom = Dom(containerName: string, items: seq<Item>, scrollWidth: int, clientWidth: int)

  /** The error the constructor throws when the scrollable element is missing. */
  const MissingScrollable: string := "MotionRail: [data-motion-rail-scrollable] element not found"

  const DefaultDelay: int := 3000
  const DefaultResumeDelay: int := 4000
  /** One column, no gap, for every width. */
  const DefaultBreakpoints: seq<Breakpoint> := [Breakpoint(None, Some(1), Some("0px"))]

  const BaseTime: real := 100.0
  const MaxTime: real := 200.0

  /** The loop over the extensions that calls hook `h` on each one defining it, in registration order. */
  method DispatchCalls(exts: seq<Extension>, h: Hook, s: RailState) returns (calls: seq<Event>)
    ensures calls == Dispatched(exts, h, s, |exts|)
  {
    calls := [];
    for i := 0 to |exts|
      invariant calls == Dispatched(exts, h, s, i)
    {
      if Defines(exts[i], h) {
        calls := calls + [HookCall(h, i, s)];
      }
    }
  }

  /** The `||` defaults of the constructor, as reported by `getOptions`. */
  function ResolveOptions(o: Options): (r: EffectiveOptions)
    ensures r.autoplay <==> o.autoplay == Some(true)
    ensures r.rtl <==> o.rtl == Some(true)
    ensures r.delay != 0 && r.resumeDelay != 0
    ensures o.delay.None? || o.delay.value == 0 ==> r.delay == DefaultDelay
    ensures o.delay.Some? && o.delay.value != 0 ==> r.delay == o.delay.value
    ensures o.resumeDelay.None? || o.resumeDelay.value == 0 ==> r.resumeDelay == DefaultResumeDelay
    ensures o.resumeDelay.Some? && o.resumeDelay.value != 0 ==> r.resumeDelay == o.resumeDelay.value
    ensures o.breakpoints.None? ==> r.breakpoints == DefaultBreakpoints
    ensures o.breakpoints.Some? ==> r.breakpoints == o.breakpoints.value
  {
    EffectiveOptions(
      o.autoplay.Some? && o.autoplay.value,
      o.rtl.Some? && o.rtl.value,
      if o.delay.Some? && o.delay.value != 0 then o.delay.value else DefaultDelay,
      if o.resumeDelay.Some? && o.resumeDelay.value != 0 then o.resumeDelay.value else DefaultResumeDelay,
      if o.breakpoints.Some? then o.breakpoints.value else DefaultBreakpoints)
  }

  /** `options.extensions || []` */
  function ResolveExtensions(o: Options): (exts: seq<Extension>)
    ensures o.extensions.None? ==> exts == []
    ensures o.extensions.Some? ==> exts == o.extensions.value
  {
    if o.extensions.Some? then o.extensions.value else []
  }

  /**
   * Without breakpoints the layout is one rule matching every width, with one
   * column and no gap; an empty breakpoint list (which `||` keeps) yields no
   * rule at all.
   */
  lemma BreakpointDefaults(o: Options, name: string, repeat: int)
    ensures o.breakpoints.None? ==>
      Rules(name, repeat, ResolveOptions(o).breakpoints) == [Rule(name, MinWidth(0), repeat, 1, "0px")]
    ensures o.breakpoints == Some([]) ==> Rules(name, repeat, ResolveOptions(o).breakpoints) == []
  {
    if o.breakpoints.None? {
      var rs := Rules(name, repeat, DefaultBreakpoints);
      RulesPolicy(name, repeat, DefaultBreakpoints, 0);
      assert rs[0] == Rule(name, MinWidth(0), repeat, 1, "0px");
    }
  }

  /** `Math.min(baseTime + Math.sqrt(|velocity|) * 50, maxTime)`, given the square root. */
  function MomentumTime(speedRoot: real): (t: real)
    requires speedRoot >= 0.0
    ensures BaseTime <= t <= MaxTime
    ensures speedRoot == 0.0 ==> t == BaseTime
    ensures speedRoot >= 2.0 ==> t == MaxTime
  {
    var raw := BaseTime + speedRoot * 50.0;
    if raw < MaxTime then raw else MaxTime
  }

  /** Where the release velocity carries the scroll position over the momentum time. */
  function Projection(scroll: real, velocity: real, momentumTime: real): real {
    scroll + -velocity * momentumTime
  }

  /** A faster release never gets a shorter momentum animation. */
  lemma MomentumTimeMonotone(a: real, b: real)
    requires 0.0 <= a <= b
    ensures MomentumTime(a) <= MomentumTime(b)
  {
    assert a * 50.0 <= b * 50.0;
  }

  /** The animations after calling the cancel closure `h` holds, if any: only the flag changes. */
  function CancelHandle(anims: map<nat, Anim>, h: Option<nat>): map<nat, Anim> {
    if h.Some? && h.value in anims then anims[h.value := anims[h.value].(cancelled := true)] else anims
  }

  /** The closure only sets the cancelled flag of its own animation. */
  lemma CancelHandleSetsOneFlag(anims: map<nat, Anim>, h: Option<nat>)
    ensures CancelHandle(anims, h).Keys == anims.Keys
    ensures forall a :: a in anims ==>
      CancelHandle(anims, h)[a] == (if h == Some(a) then anims[a].(cancelled := true) else anims[a])
  {
  }

  /** The items after a layout change: the same elements in the same order, at new offsets. */
  function WithOffsets(items: seq<Item>, offsets: seq<int>): (r: seq<Item>)
    requires |offsets| == |items|
    ensures Ids(r) == Ids(items) && Offsets(r) == offsets
  {
    seq(|items|, i requires 0 <= i < |items| => Item(items[i].id, offsets[i]))
  }

  ghost predicate ItemsInvariant(items: seq<Item>, snapPoints: seq<int>, state: RailState, observer: Option<seq<ElementId>>) {
    && state.totalItems == |items| == |snapPoints|
    && Distinct(Ids(items))
    && WellFormed(state, |items|)
    && FlagsAgree(state, |items|)
    && (observer.Some? ==> observer.value == Ids(items) && |items| > 0)
  }

  ghost predicate TimersInvariant(timers: Timers, interval: Option<TimerId>, timeout: Option<TimerId>) {
    && timers.Valid()
    && (interval.Some? ==> interval.value in timers.intervals)
    && (timeout.Some? ==> timeout.value in timers.timeouts)
  }

  ghost predicate AnimationsInvariant(animations: map<nat, Anim>, nextAnimation: nat, cancelScroll: Option<nat>) {
    && (forall a :: a in animations ==> a < nextAnimation && animations[a].duration > 0.0)
    && (cancelScroll.Some? ==> cancelScroll.value in animations)
    && (forall a :: a in animations && animations[a].scheduled && !animations[a].cancelled ==> cancelScroll == Some(a))
  }

  /** No animation other than a cancelled one still has a frame pending. */
  ghost predicate NoLiveAnimation(animations: map<nat, Anim>) {
    forall a :: a in animations && animations[a].scheduled ==> animations[a].cancelled
  }

  /** A fresh state for a new list of items, with observation of those items or none, meets the item invariant. */
  lemma ResetKeepsInvariant(items: seq<Item>, snapPoints: seq<int>, observer: Option<seq<ElementId>>)
    requires Distinct(Ids(items)) && |snapPoints| == |items|
    requires observer.Some? ==> observer.value == Ids(items) && |items| > 0
    ensures ItemsInvariant(items, snapPoints, RailState(|items|, [], false, false), observer)
  {
  }

  /** Disconnecting the intersection observer keeps the item invariant. */
  lemma DisconnectKeepsInvariant(items: seq<Item>, snapPoints: seq<int>, state: RailState, observer: Option<seq<ElementId>>)
    requires ItemsInvariant(items, snapPoints, state, observer)
    ensures ItemsInvariant(items, snapPoints, state, None)
  {
  }

  /** Clearing the interval and the timeout the handles hold, and forgetting both, keeps the timer invariant. */
  lemma ClearBothKeepsInvariant(timers: Timers, interval: Option<TimerId>, timeout: Option<TimerId>)
    requires TimersInvariant(timers, interval, timeout)
    ensures TimersInvariant(timers.ClearInterval(interval).ClearTimeout(timeout), None, None)
  {
  }

  /** Calling the cancel closure keeps the invariant and leaves no animation live. */
  lemma CancelKeepsInvariant(animations: map<nat, Anim>, next: nat, cancel: Option<nat>)
    requires AnimationsInvariant(animations, next, cancel)
    ensures AnimationsInvariant(CancelHandle(animations, cancel), next, cancel)
    ensures AnimationsInvariant(CancelHandle(animations, cancel), next, None)
    ensures NoLiveAnimation(CancelHandle(animations, cancel))
  {
  }

  /** Starting an animation under a fresh handle, with none live, makes it the one `cancelScroll` holds. */
  lemma StartKeepsInvariant(animations: map<nat, Anim>, next: nat, cancel: Option<nat>, a: Anim)
    requires AnimationsInvariant(animations, next, cancel) && NoLiveAnimation(animations) && a.duration > 0.0
    ensures next !in animations
    ensures AnimationsInvariant(animations[next := a], next + 1, Some(next))
  {
  }

  /** A frame of animation `h` only changes whether it is scheduled; it may stay scheduled only if it is the held one or cancelled. */
  lemma FrameKeepsInvariant(animations: map<nat, Anim>, next: nat, cancel: Option<nat>, h: nat, scheduled: bool)
    requires AnimationsInvariant(animations, next, cancel) && h in animations
    requires scheduled ==> animations[h].scheduled
    ensures AnimationsInvariant(animations[h := animations[h].(scheduled := scheduled)], next, cancel)
  {
  }

  /** The last frame of the held animation, followed by forgetting the closure. */
  lemma FinishKeepsInvariant(animations: map<nat, Anim>, next: nat, cancel: Option<nat>, h: nat)
    requires AnimationsInvariant(animations, next, cancel) && h in animations
    requires animations[h].scheduled && !animations[h].cancelled
    ensures AnimationsInvariant(animations[h := animations[h].(scheduled := false)], next, None)
  {
  }

  /**
   * The drag fields of the engine: whether a drag is on, the captured
   * pointer, the pointer's x and the logical scroll when the drag started,
   * the last pointer sample, and the velocity measured from it.
   */
  datatype Drag = Drag(
    isDragging: bool,
    pointerId: Option<int>,
    startX: real,
    startLogicalScroll: real,
    lastPointerX: real,
    lastPointerTime: real,
    velocity: real)

  /** The drag fields' initial values. */
  const Idle: Drag := Drag(false, None, 0.0, 0.0, 0.0, 0.0, 0.0)

  class MotionRail {
    /** The options object as passed; the settings below are its resolved values. */
    const options: Options
    const rtl: bool := ResolveOptions(options).rtl
    const autoplay: bool := ResolveOptions(options).autoplay
    const delay: int := ResolveOptions(options).delay
    const resumeDelay: int := ResolveOptions(options).resumeDelay
    const hasOnChange: bool := options.hasOnChange
    const extensions: seq<Extension> := ResolveExtensions(options)
    const breakpoints: seq<Breakpoint> := ResolveOptions(options).breakpoints
    const caps: Capabilities

    /** The scrollable element's container name, the grid's children and the scrollable's widths. */
    var dom: Dom
    /** The scrollable's `scrollLeft`. */
    var scrollLeft: real
    /** The rules of every style element appended to the document head, in order. */
    var styleSheets: seq<seq<Rule>>
    /** The targets of the smooth `scrollTo` calls, in order. */
    var scrollRequests: seq<int>
    /** Whether the pointer listeners are attached. */
    var listening: bool

    var timers: Timers
    var autoPlayIntervalId: Option<TimerId>
    var autoPlayTimeoutId: Option<TimerId>

    var drag: Drag

    /** Every animation started so far, by handle; `cancelScroll` holds the handle of the last one, if any. */
    var animations: map<nat, Anim>
    var nextAnimation: nat
    var cancelScroll: Option<nat>

    var snapPoints: seq<int>
    var resizeObserving: bool
    /** The intersection observer, if any, with the list of items it captured. */
    var observer: Option<seq<ElementId>>
    var state: RailState
    /** The calls made on extensions and on `onChange`, in order. */
    var log: seq<Event>

    /** The scrollable's scroll range, `scrollWidth - clientWidth`, which the browser clamps `scrollLeft` to. */
    function ScrollRange(): int
      reads this
    {
      dom.scrollWidth - dom.clientWidth
    }

    /** The item-derived state: the snap index, the visible set and the observer agree with the items. */
    ghost predicate ItemsValid()
      reads this
    {
      ItemsInvariant(dom.items, snapPoints, state, observer)
    }

    /** Each stored timer handle is live with the host. */
    ghost predicate TimersValid()
      reads this
    {
      TimersInvariant(timers, autoPlayIntervalId, autoPlayTimeoutId)
    }

    /** The only animation that can still move the rail is the one `cancelScroll` holds. */
    ghost predicate AnimationsValid()
      reads this
    {
      AnimationsInvariant(animations, nextAnimation, cancelScroll)
    }

    /** A drag is on exactly while a pointer is captured. */
    ghost predicate DragValid()
      reads this
    {
      drag.isDragging <==> drag.pointerId.Some?
    }

    ghost predicate Valid()
      reads this
    {
      ItemsValid() && TimersValid() && AnimationsValid() && DragValid()
    }

    /**
     * The constructor past its check for the scrollable element: resolves the
     * options, generates the layout rules, resets the scroll position,
     * attaches the listeners, builds the snap index, starts the observers the
     * host offers, starts autoplay when asked, and calls `onInit`.
     */
    constructor (dom: Dom, options: Options, caps: Capabilities, nameSuffix: string)
      requires Distinct(Ids(dom.items))
      ensures this.options == options && this.caps == caps
      ensures this.dom.items == dom.items && this.dom.scrollWidth == dom.scrollWidth && this.dom.clientWidth == dom.clientWidth
      ensures this.dom.containerName == if dom.containerName == "" then RandomContainerName(nameSuffix) else dom.containerName
      ensures state == RailState(|dom.items|, [], false, false)
      ensures styleSheets == [Rules(this.dom.containerName, |dom.items|, breakpoints)]
      ensures scrollLeft == 0.0 && listening && scrollRequests == []
      ensures snapPoints == Snap.SnapPoints(Offsets(dom.items), dom.scrollWidth - dom.clientWidth)
      ensures resizeObserving == caps.resizeObserver
      ensures observer == if caps.intersectionObserver && |dom.items| > 0 then Some(Ids(dom.items)) else None
      ensures autoplay ==> timers == Timers({1}, {}, 2) && autoPlayIntervalId == Some(1)
      ensures !autoplay ==> timers == Timers({}, {}, 1) && autoPlayIntervalId.None?
      ensures autoPlayTimeoutId.None? && drag == Idle && animations == map[] && nextAnimation == 0 && cancelScroll.None?
      ensures log == Dispatched(extensions, OnInit, state, |extensions|)
      ensures Valid()
    {
      var resolved := ResolveOptions(options);
      var name := dom.containerName;
      if name == "" {
        name := RandomContainerName(nameSuffix);
      }
      var rules := BuildRules(name, |dom.items|, resolved.breakpoints);
      var initialState := RailState(|dom.items|, [], false, false);
      var initCalls := DispatchCalls(ResolveExtensions(options), OnInit, initialState);
      this.options := options;
      this.caps := caps;
      this.dom := dom.(containerName := name);
      styleSheets := [rules];
      scrollRequests := [];
      scrollLeft := 0.0;
      listening := true;
      if resolved.autoplay {
        timers := Timers({}, {}, 1).SetInterval();
        autoPlayIntervalId := Some(1);
      } else {
        timers := Timers({}, {}, 1);
        autoPlayIntervalId := None;
      }
      autoPlayTimeoutId := None;
      drag := Idle;
      animations := map[];
      nextAnimation := 0;
      cancelScroll := None;
      snapPoints := Snap.SnapPoints(Offsets(dom.items), dom.scrollWidth - dom.clientWidth);
      resizeObserving := caps.resizeObserver;
      observer := if caps.intersectionObserver && |dom.items| > 0 then Some(Ids(dom.items)) else None;
      state := initialState;
      log := initCalls;
    }

    /** A snapshot of the state; it is well formed and its edge flags agree with its visible set. */
    function GetState(): (s: RailState)
      reads this
      requires ItemsValid()
      ensures s.totalItems == |dom.items| == |snapPoints|
      ensures WellFormed(s, s.totalItems) && FlagsAgree(s, s.totalItems)
    {
      state
    }

    /** The options with their defaults resolved. */
    function GetOptions(): (o: EffectiveOptions)
      ensures o == ResolveOptions(options)
    {
      EffectiveOptions(autoplay, rtl, delay, resumeDelay, breakpoints)
    }

    /**
     * Names the scrollable container when it has no inline name, and appends
     * one style element with a rule per breakpoint for the current item count.
     */
    method SetBreakPoints(nameSuffix: string)
      modifies this`dom, this`styleSheets
      ensures dom == old(dom).(containerName := if old(dom.containerName) == "" then RandomContainerName(nameSuffix) else old(dom.containerName))
      ensures styleSheets == old(styleSheets) + [Rules(dom.containerName, state.totalItems, breakpoints)]
    {
      var randomName := "";
      if dom.containerName == "" {
        randomName := RandomContainerName(nameSuffix);
        dom := dom.(containerName := randomName);
      } else {
        randomName := dom.containerName;
      }
      var rules := BuildRules(randomName, state.totalItems, breakpoints);
      styleSheets := styleSheets + [rules];
    }

    /** One snap point per item: its offset, clamped to the largest scroll position. */
    method CacheSnapPoints()
      modifies this`snapPoints
      ensures snapPoints == Snap.SnapPoints(Offsets(dom.items), dom.scrollWidth - dom.clientWidth)
    {
      var maxScroll := dom.scrollWidth - dom.clientWidth;
      snapPoints := Snap.SnapPoints(Offsets(dom.items), maxScroll);
    }

    /** Starts an intersection observer over the current items, when the host has one and there are items. */
    method ObserveEdgeItems()
      modifies this`observer
      ensures observer == if caps.intersectionObserver && |dom.items| > 0 then Some(Ids(dom.items)) else old(observer)
    {
      if !caps.intersectionObserver {
        return;
      }
      if |dom.items| == 0 {
        return;
      }
      observer := Some(Ids(dom.items));
    }

    /** Calls hook `h` with snapshot `s` on every extension defining it, in registration order. */
    method DispatchHook(h: Hook, s: RailState)
      modifies this`log
      ensures log == old(log) + Dispatched(extensions, h, s, |extensions|)
    {
      var calls := DispatchCalls(extensions, h, s);
      log := log + calls;
    }

    /** `onUpdate` on every extension defining it, then `onChange` when given, all with one snapshot. */
    method HandleStateChange()
      requires ItemsValid()
      modifies this`log
      ensures log == old(log) + Notification(extensions, hasOnChange, state)
    {
      var s := GetState();
      DispatchHook(OnUpdate, s);
      if hasOnChange {
        log := log + [ChangeCallback(s)];
      }
    }

    /**
     * The intersection observer's callback on a batch of entries: the state
     * becomes the batch folded over it, and one notification follows exactly
     * when some entry changed something.
     */
    method OnIntersect(entries: seq<Entry>)
      requires Valid() && observer.Some?
      modifies this`state, this`log
      ensures var r := Reduce(old(state), Ids(dom.items), entries);
        && state == r.state
        && log == old(log) + (if r.changed then Notification(extensions, hasOnChange, state) else [])
      ensures Valid()
    {
      var observed := observer.value;
      assert |observed| > 0;
      var stateChanged := false;
      for i := 0 to |entries|
        invariant Reduce(old(state), observed, entries[..i]) == Outcome(state, stateChanged)
        invariant log == old(log)
      {
        assert entries[..i + 1][..i] == entries[..i];
        var changed := ApplyEntry(observed, entries[i]);
        stateChanged := stateChanged || changed;
      }
      assert entries[..|entries|] == entries;
      ReducePreservesWellFormed(old(state), observed, entries);
      ReduceKeepsFlagsAgreeing(old(state), observed, entries);
      assert timers == old(timers) && autoPlayIntervalId == old(autoPlayIntervalId) && autoPlayTimeoutId == old(autoPlayTimeoutId);
      assert animations == old(animations) && nextAnimation == old(nextAnimation) && cancelScroll == old(cancelScroll);
      if stateChanged {
        HandleStateChange();
      }
    }

    /** One entry of the callback's `forEach`: the visible set first, then the edge flag of the first or last item. */
    method ApplyEntry(observed: seq<ElementId>, entry: Entry) returns (changed: bool)
      requires |observed| > 0
      modifies this`state
      ensures Outcome(state, changed) == Step(old(state), observed, entry)
    {
      changed := false;
      var index := IndexOf(observed, entry.target);
      if index != -1 {
        if entry.isIntersecting {
          if index !in state.visibleItemIndexes {
            state := state.(visibleItemIndexes := Sort(state.visibleItemIndexes + [index]));
            changed := true;
          }
        } else {
          var prevLength := |state.visibleItemIndexes|;
          state := state.(visibleItemIndexes := Without(state.visibleItemIndexes, index));
          if |state.visibleItemIndexes| != prevLength {
            changed := true;
          }
        }
        if entry.target == observed[0] {
          var newValue := entry.isIntersecting;
          if state.isFirstItemVisible != newValue {
            state := state.(isFirstItemVisible := newValue);
            changed := true;
          }
        } else if entry.target == observed[|observed| - 1] {
          var newValue := entry.isIntersecting;
          if state.isLastItemVisible != newValue {
            state := state.(isLastItemVisible := newValue);
            changed := true;
          }
        }
      }
    }

    /** The resize observer's callback after a layout change: new offsets and widths, a rebuilt snap index. */
    method OnResize(offsets: seq<int>, newScrollWidth: int, newClientWidth: int)
      requires Valid() && resizeObserving && |offsets| == |dom.items|
      modifies this`dom, this`snapPoints, this`scrollLeft
      ensures dom == old(dom).(items := dom.items, scrollWidth := newScrollWidth, clientWidth := newClientWidth)
      ensures Ids(dom.items) == old(Ids(dom.items)) && Offsets(dom.items) == offsets
      ensures snapPoints == Snap.SnapPoints(offsets, newScrollWidth - newClientWidth)
      ensures scrollLeft == ScrollPosition.Clamp(old(scrollLeft), newScrollWidth - newClientWidth)
      ensures Valid()
    {
      dom := dom.(items := WithOffsets(dom.items, offsets), scrollWidth := newScrollWidth, clientWidth := newClientWidth);
      scrollLeft := ScrollPosition.Clamp(scrollLeft, ScrollRange());
      CacheSnapPoints();
    }

    /** What `pause` leaves behind, from the timers and handles it started with. */
    ghost predicate Paused(before: Timers, interval: Option<TimerId>, timeout: Option<TimerId>)
      reads this
    {
      var cleared := before.ClearInterval(interval).ClearTimeout(timeout);
      && autoPlayIntervalId.None?
      && (if autoplay && !drag.isDragging
          then timers == cleared.SetTimeout() && autoPlayTimeoutId == Some(cleared.nextId)
          else timers == cleared && autoPlayTimeoutId.None?)
    }

    /** Starts the autoplay interval; a running one is overwritten, not cleared. */
    method Play()
      requires timers.Valid()
      modifies this`timers, this`autoPlayIntervalId
      ensures timers == old(timers).SetInterval() && timers.Valid()
      ensures autoPlayIntervalId == Some(old(timers.nextId)) && old(timers.nextId) !in old(timers.intervals)
      ensures old(timers.intervals) < timers.intervals
    {
      autoPlayIntervalId := Some(timers.nextId);
      timers := timers.SetInterval();
    }

    /** `if (autoPlayIntervalId) { clearInterval(...); autoPlayIntervalId = null; }` */
    method ClearAutoplayInterval()
      requires TimersValid()
      modifies this`timers, this`autoPlayIntervalId
      ensures timers == old(timers).ClearInterval(old(autoPlayIntervalId)) && autoPlayIntervalId.None?
      ensures TimersValid()
    {
      if autoPlayIntervalId.Some? {
        timers := timers.ClearInterval(autoPlayIntervalId);
        autoPlayIntervalId := None;
      }
    }

    /** `if (autoPlayTimeoutId) { clearTimeout(...); autoPlayTimeoutId = null; }` */
    method ClearResumeTimeout()
      requires TimersValid()
      modifies this`timers, this`autoPlayTimeoutId
      ensures timers == old(timers).ClearTimeout(old(autoPlayTimeoutId)) && autoPlayTimeoutId.None?
      ensures TimersValid()
    {
      if autoPlayTimeoutId.Some? {
        timers := timers.ClearTimeout(autoPlayTimeoutId);
        autoPlayTimeoutId := None;
      }
    }

    /** Arms the resume timeout, overwriting the stored handle without clearing it. */
    method ArmResumeTimeout()
      requires TimersValid()
      modifies this`timers, this`autoPlayTimeoutId
      ensures timers == old(timers).SetTimeout() && autoPlayTimeoutId == Some(old(timers.nextId))
      ensures TimersValid()
    {
      autoPlayTimeoutId := Some(timers.nextId);
      timers := timers.SetTimeout();
    }

    /** `if (this.cancelScroll) this.cancelScroll()`: the closure only sets its animation's flag. */
    method CancelMomentum()
      requires AnimationsValid()
      modifies this`animations
      ensures animations == CancelHandle(old(animations), cancelScroll)
      ensures NoLiveAnimation(animations)
      ensures AnimationsInvariant(animations, nextAnimation, None)
      ensures AnimationsValid()
    {
      CancelKeepsInvariant(animations, nextAnimation, cancelScroll);
      if cancelScroll.Some? {
        animations := CancelHandle(animations, cancelScroll);
      }
    }

    /**
     * Clears the interval and the resume timeout it holds; then, unless a drag
     * is on or autoplay is off, arms a resume timeout.
     */
    method Pause()
      requires TimersValid()
      modifies this`timers, this`autoPlayIntervalId, this`autoPlayTimeoutId
      ensures Paused(old(timers), old(autoPlayIntervalId), old(autoPlayTimeoutId))
      ensures timers.intervals == old(timers.intervals) - Handles(old(autoPlayIntervalId))
      ensures TimersValid()
    {
      ClearAutoplayInterval();
      ClearResumeTimeout();
      if drag.isDragging {
        return;
      }
      if !autoplay {
        return;
      }
      ArmResumeTimeout();
    }

    /** The smooth scroll a page move requests: none without visible items, else the target's snap point. */
    function PageRequest(dir: Direction): (r: seq<int>)
      reads this
      requires ItemsValid()
      ensures |state.visibleItemIndexes| == 0 ==> r == []
      ensures |state.visibleItemIndexes| > 0 ==>
        var t := PageTarget(state.visibleItemIndexes, |snapPoints|, dir, rtl, state.isFirstItemVisible, state.isLastItemVisible);
        0 <= t < |snapPoints| && r == [snapPoints[t]]
    {
      var vis := state.visibleItemIndexes;
      if |vis| == 0 then []
      else
        PageTargetInRange(vis, |snapPoints|, dir, rtl, state.isFirstItemVisible, state.isLastItemVisible);
        [snapPoints[PageTarget(vis, |snapPoints|, dir, rtl, state.isFirstItemVisible, state.isLastItemVisible)]]
    }

    /** `scrollByPage`: requests a smooth scroll to the page target, if any item is visible. */
    method ScrollByPage(dir: Direction)
      requires ItemsValid()
      modifies this`scrollRequests
      ensures scrollRequests == old(scrollRequests) + PageRequest(dir)
    {
      var vis := state.visibleItemIndexes;
      if |vis| == 0 {
        return;
      }
      var targetIndex: int;
      var firstVisibleIndex := vis[0];
      var lastVisibleIndex := vis[|vis| - 1];
      var visibleCount := |vis|;
      if dir == Forward {
        targetIndex := lastVisibleIndex + 1;
        if rtl {
          targetIndex := lastVisibleIndex + visibleCount;
        }
        if targetIndex >= |snapPoints| - 1 && state.isLastItemVisible {
          targetIndex := 0;
        } else if targetIndex >= |snapPoints| - 1 && !state.isLastItemVisible {
          targetIndex := |snapPoints| - 1;
        }
      } else {
        targetIndex := firstVisibleIndex - visibleCount;
        if rtl {
          targetIndex := lastVisibleIndex - visibleCount;
        }
        if targetIndex <= 0 && state.isFirstItemVisible {
          targetIndex := |snapPoints| - 1;
        } else if targetIndex <= 0 && !state.isFirstItemVisible {
          targetIndex := 0;
        }
      }
      PageTargetInRange(vis, |snapPoints|, dir, rtl, state.isFirstItemVisible, state.isLastItemVisible);
      scrollRequests := scrollRequests + [snapPoints[targetIndex]];
    }

    method Next()
      requires Valid()
      modifies this`timers, this`autoPlayIntervalId, this`autoPlayTimeoutId, this`scrollRequests
      ensures Paused(old(timers), old(autoPlayIntervalId), old(autoPlayTimeoutId))
      ensures scrollRequests == old(scrollRequests) + PageRequest(Forward)
      ensures Valid()
    {
      Pause();
      ScrollByPage(Forward);
    }

    method Prev()
      requires Valid()
      modifies this`timers, this`autoPlayIntervalId, this`autoPlayTimeoutId, this`scrollRequests
      ensures Paused(old(timers), old(autoPlayIntervalId), old(autoPlayTimeoutId))
      ensures scrollRequests == old(scrollRequests) + PageRequest(Backward)
      ensures Valid()
    {
      Pause();
      ScrollByPage(Backward);
    }

    /** Pauses, then requests a smooth scroll to the item's snap point when the index is in range. */
    method ScrollToIndex(index: int)
      requires Valid()
      modifies this`timers, this`autoPlayIntervalId, this`autoPlayTimeoutId, this`scrollRequests
      ensures Paused(old(timers), old(autoPlayIntervalId), old(autoPlayTimeoutId))
      ensures scrollRequests == old(scrollRequests) + (if 0 <= index < |snapPoints| then [snapPoints[index]] else [])
      ensures Valid()
    {
      Pause();
      if index >= 0 && index < |snapPoints| {
        scrollRequests := scrollRequests + [snapPoints[index]];
      }
    }

    /**
     * The smooth scroll an extension's command requests: at most one, always
     * to a snap point; a page move requests one exactly when some item is
     * visible, `scrollToIndex` exactly when the index has a snap point, and
     * then that one.
     */
    function CommandRequest(c: Command): (r: seq<int>)
      reads this
      requires ItemsValid()
      ensures |r| <= 1
      ensures forall x :: x in r ==> x in snapPoints
      ensures !c.ScrollToIndex? ==> (r != [] <==> |state.visibleItemIndexes| > 0)
      ensures c.ScrollToIndex? ==> (r != [] <==> 0 <= c.index < |snapPoints|)
      ensures c.ScrollToIndex? && r != [] ==> r[0] == snapPoints[c.index]
    {
      match c
      case Next => PageRequest(Forward)
      case Prev => PageRequest(Backward)
      case ScrollToIndex(i) => if 0 <= i < |snapPoints| then [snapPoints[i]] else []
    }

    /** An extension's click handler: `next()`, `prev()` or `scrollToIndex(i)`, as its command says. */
    method Perform(c: Command)
      requires Valid()
      modifies this`timers, this`autoPlayIntervalId, this`autoPlayTimeoutId, this`scrollRequests
      ensures Paused(old(timers), old(autoPlayIntervalId), old(autoPlayTimeoutId))
      ensures scrollRequests == old(scrollRequests) + CommandRequest(c)
      ensures Valid()
    {
      match c
      case Next => Next();
      case Prev => Prev();
      case ScrollToIndex(i) => ScrollToIndex(i);
    }

    /** The autoplay interval's callback: one forward page move. */
    method IntervalTick(id: TimerId)
      requires Valid() && id in timers.intervals
      modifies this`scrollRequests
      ensures scrollRequests == old(scrollRequests) + PageRequest(Forward)
    {
      ScrollByPage(Forward);
    }

    /** A resume timeout's callback, after the host retires it: `play`, then forget the timeout handle. */
    method ResumeTimeout(id: TimerId)
      requires Valid() && id in timers.timeouts
      modifies this`timers, this`autoPlayIntervalId, this`autoPlayTimeoutId
      ensures timers == old(timers).(timeouts := old(timers.timeouts) - {id}).SetInterval()
      ensures autoPlayIntervalId == Some(old(timers.nextId)) && autoPlayTimeoutId.None?
      ensures Valid()
    {
      timers := timers.(timeouts := timers.timeouts - {id});
      Play();
      autoPlayTimeoutId := None;
    }

    /**
     * Starts a drag unless one is on: records the pointer, the start and the
     * last sample, pauses, and cancels the running momentum animation.
     */
    method PointerDown(e: PointerEvent)
      requires Valid() && listening
      modifies this`drag, this`timers, this`autoPlayIntervalId, this`autoPlayTimeoutId, this`animations
      ensures old(drag.pointerId).Some? ==> unchanged(this)
      ensures old(drag.pointerId).None? ==>
        && drag == Drag(true, Some(e.pointerId), e.clientX, scrollLeft, e.clientX, e.timeStamp, 0.0)
        && autoPlayIntervalId.None? && autoPlayTimeoutId.None?
        && timers == old(timers).ClearInterval(old(autoPlayIntervalId)).ClearTimeout(old(autoPlayTimeoutId))
        && animations == CancelHandle(old(animations), cancelScroll)
      ensures Valid()
    {
      if drag.pointerId.Some? {
        return;
      }
      drag := Drag(true, Some(e.pointerId), e.clientX, scrollLeft, e.clientX, e.timeStamp, 0.0);
      Pause();
      CancelMomentum();
      // The handler's closing `clearTimeout` is never reached: with a drag on,
      // `pause` has just cleared the resume timeout and armed none.
      if autoPlayTimeoutId.Some? {
        assert false;
      }
    }

    /**
     * While the drag's pointer moves: the scroll follows the pointer from the
     * drag start, and the velocity is sampled when time has advanced.
     */
    method PointerMove(e: PointerEvent)
      requires Valid() && listening
      modifies this`scrollLeft, this`drag
      ensures !drag.isDragging || drag.pointerId != Some(e.pointerId) ==> unchanged(this)
      ensures drag.isDragging && drag.pointerId == Some(e.pointerId) ==>
        var d := old(drag);
        && scrollLeft == ScrollPosition.Clamp(d.startLogicalScroll - (e.clientX - d.startX), ScrollRange())
        && (e.timeStamp - d.lastPointerTime > 0.0 ==>
              drag == d.(velocity := (e.clientX - d.lastPointerX) / (e.timeStamp - d.lastPointerTime),
                         lastPointerX := e.clientX, lastPointerTime := e.timeStamp))
        && (e.timeStamp - d.lastPointerTime <= 0.0 ==> drag == d)
      ensures Valid()
    {
      if !drag.isDragging || drag.pointerId != Some(e.pointerId) {
        return;
      }
      var deltaX := e.clientX - drag.startX;
      var logicalScroll := drag.startLogicalScroll - deltaX;
      scrollLeft := ScrollPosition.Clamp(logicalScroll, ScrollRange());
      var deltaTime := e.timeStamp - drag.lastPointerTime;
      if deltaTime > 0.0 {
        var pointerDelta := e.clientX - drag.lastPointerX;
        drag := drag.(velocity := pointerDelta / deltaTime, lastPointerX := e.clientX, lastPointerTime := e.timeStamp);
      }
    }

    /**
     * The browser moved the scroll position by itself (a smooth `scrollTo` on
     * its way, the wheel, the keyboard): what `getLogicalScroll` reads next.
     */
    method ScrollMoved(x: real)
      modifies this`scrollLeft
      ensures scrollLeft == ScrollPosition.Clamp(x, ScrollRange())
      ensures 0.0 <= scrollLeft && (ScrollRange() >= 0 ==> scrollLeft <= ScrollRange() as real)
    {
      scrollLeft := ScrollPosition.Clamp(x, ScrollRange());
    }

    /** Starts a momentum animation towards `target` and returns its handle. */
    method AnimateLogicalScroll(target: int, duration: real, now: real) returns (h: nat)
      requires duration > 0.0
      modifies this`animations, this`nextAnimation
      ensures h == old(nextAnimation) && nextAnimation == h + 1
      ensures animations == old(animations)[h := Anim(scrollLeft, target, duration, now, false, true)]
    {
      h := nextAnimation;
      nextAnimation := nextAnimation + 1;
      animations := animations[h := Anim(scrollLeft, target, duration, now, false, true)];
    }

    /**
     * Ends the drag of that pointer (`pointerup` and `pointerleave`): projects
     * the release velocity over the momentum time, cancels the running
     * animation, and animates to the snap point nearest the projection.
     * `speedRoot` is `Math.sqrt(Math.abs(velocity))`, supplied by the host.
     */
    method PointerUp(e: PointerEvent, speedRoot: real, now: real)
      requires Valid() && listening
      requires speedRoot >= 0.0 && speedRoot * speedRoot == Snap.Abs(drag.velocity)
      modifies this`drag, this`animations, this`nextAnimation, this`cancelScroll
      ensures !old(drag.isDragging) || old(drag.pointerId) != Some(e.pointerId) ==> unchanged(this)
      ensures old(drag.isDragging) && old(drag.pointerId) == Some(e.pointerId) ==>
        var duration := MomentumTime(speedRoot);
        var projected := Projection(scrollLeft, old(drag.velocity), duration);
        var h := old(nextAnimation);
        && drag == old(drag).(pointerId := None, isDragging := false, velocity := 0.0)
        && nextAnimation == h + 1 && cancelScroll == Some(h) && h !in old(animations)
        && h in animations
        && animations == CancelHandle(old(animations), old(cancelScroll))[h := animations[h]]
        && animations[h].startLogical == scrollLeft && animations[h].duration == duration
        && animations[h].startTime == now && !animations[h].cancelled && animations[h].scheduled
        && Snap.IsNearest(snapPoints, projected, animations[h].target)
      ensures Valid()
    {
      if !drag.isDragging || drag.pointerId != Some(e.pointerId) {
        return;
      }
      drag := drag.(pointerId := None, isDragging := false);
      var momentumTime := MomentumTime(speedRoot);
      var currentLogicalScroll := scrollLeft;
      var targetLogicalScroll := Projection(currentLogicalScroll, drag.velocity, momentumTime);
      CancelMomentum();
      var snapPoint := Snap.FindNearest(snapPoints, targetLogicalScroll);
      StartKeepsInvariant(animations, nextAnimation, cancelScroll, Anim(scrollLeft, snapPoint, momentumTime, now, false, true));
      var h := AnimateLogicalScroll(snapPoint, momentumTime, now);
      cancelScroll := Some(h);
      drag := drag.(velocity := 0.0);
    }

    /** `onScrollEnd`: forgets the cancel closure and, under autoplay, arms a resume timeout without clearing one. */
    method OnScrollEnd()
      requires TimersValid()
      modifies this`cancelScroll, this`timers, this`autoPlayTimeoutId
      ensures cancelScroll.None?
      ensures autoplay ==> autoPlayTimeoutId == Some(old(timers.nextId)) && timers == old(timers).SetTimeout()
      ensures !autoplay ==> autoPlayTimeoutId == old(autoPlayTimeoutId) && timers == old(timers)
      ensures TimersValid()
    {
      cancelScroll := None;
      if autoplay {
        ArmResumeTimeout();
      }
    }

    /**
     * A frame callback of animation `h`: nothing once cancelled; otherwise
     * the eased position, then another frame or, at the end, `onScrollEnd`.
     */
    method AnimationFrame(h: nat, currentTime: real)
      requires Valid() && h in animations && animations[h].scheduled
      modifies this`animations, this`scrollLeft, this`cancelScroll, this`timers, this`autoPlayTimeoutId
      ensures var a := old(animations[h]);
        a.cancelled ==>
          && animations == old(animations)[h := a.(scheduled := false)] && scrollLeft == old(scrollLeft)
          && cancelScroll == old(cancelScroll) && timers == old(timers) && autoPlayTimeoutId == old(autoPlayTimeoutId)
      ensures var a := old(animations[h]);
        var p := Progress(currentTime - a.startTime, a.duration);
        !a.cancelled ==>
          && p.Finite?
          && scrollLeft == ScrollPosition.Clamp(FrameScroll(a.startLogical, a.target as real, p), ScrollRange())
          && animations == old(animations)[h := a.(scheduled := Unfinished(p))]
          && (Unfinished(p) ==> cancelScroll == old(cancelScroll) && timers == old(timers) && autoPlayTimeoutId == old(autoPlayTimeoutId))
          && (!Unfinished(p) ==>
                && scrollLeft == ScrollPosition.Clamp(a.target as real, ScrollRange()) && cancelScroll.None?
                && (autoplay ==> autoPlayTimeoutId == Some(old(timers.nextId)) && timers == old(timers).SetTimeout())
                && (!autoplay ==> autoPlayTimeoutId == old(autoPlayTimeoutId) && timers == old(timers)))
      ensures Valid()
    {
      var a := animations[h];
      FrameKeepsInvariant(animations, nextAnimation, cancelScroll, h, false);
      animations := animations[h := a.(scheduled := false)];
      if a.cancelled {
        return;
      }
      var elapsed := currentTime - a.startTime;
      var progress := Progress(elapsed, a.duration);
      FinishedFrameAtTarget(a.startLogical, a.target as real, elapsed, a.duration);
      scrollLeft := ScrollPosition.Clamp(FrameScroll(a.startLogical, a.target as real, progress), ScrollRange());
      if Unfinished(progress) {
        FrameKeepsInvariant(old(animations), nextAnimation, cancelScroll, h, true);
        animations := animations[h := a];
      } else {
        FinishKeepsInvariant(old(animations), nextAnimation, cancelScroll, h);
        OnScrollEnd();
      }
    }

    /**
     * `update` up to its notification: drops the observer, resets the state
     * for the new count, appends new layout rules, rebuilds the snap index and
     * observes the new items.
     */
    method Reload(children: seq<Item>, newScrollWidth: int, newClientWidth: int, nameSuffix: string)
      requires Distinct(Ids(children))
      modifies this`observer, this`dom, this`state, this`styleSheets, this`snapPoints, this`scrollLeft
      ensures dom.items == children && dom.scrollWidth == newScrollWidth && dom.clientWidth == newClientWidth
      ensures scrollLeft == ScrollPosition.Clamp(old(scrollLeft), newScrollWidth - newClientWidth)
      ensures dom.containerName == if old(dom.containerName) == "" then RandomContainerName(nameSuffix) else old(dom.containerName)
      ensures state == RailState(|children|, [], false, false)
      ensures styleSheets == old(styleSheets) + [Rules(dom.containerName, |children|, breakpoints)]
      ensures snapPoints == Snap.SnapPoints(Offsets(children), newScrollWidth - newClientWidth)
      ensures observer == if caps.intersectionObserver && |children| > 0 then Some(Ids(children)) else None
      ensures ItemsValid()
    {
      // `if (observer) { disconnect(); observer = null; }`
      observer := None;
      dom, state := dom.(items := children, scrollWidth := newScrollWidth, clientWidth := newClientWidth), RailState(|children|, [], false, false);
      scrollLeft := ScrollPosition.Clamp(scrollLeft, ScrollRange());
      SetBreakPoints(nameSuffix);
      CacheSnapPoints();
      ObserveEdgeItems();
      ResetKeepsInvariant(dom.items, snapPoints, observer);
    }

    /** Re-reads the children after they changed, then notifies once. */
    method Update(children: seq<Item>, newScrollWidth: int, newClientWidth: int, nameSuffix: string)
      requires Valid() && Distinct(Ids(children))
      modifies this`observer, this`dom, this`state, this`styleSheets, this`snapPoints, this`scrollLeft, this`log
      ensures dom.items == children && dom.scrollWidth == newScrollWidth && dom.clientWidth == newClientWidth
      ensures scrollLeft == ScrollPosition.Clamp(old(scrollLeft), newScrollWidth - newClientWidth)
      ensures dom.containerName == if old(dom.containerName) == "" then RandomContainerName(nameSuffix) else old(dom.containerName)
      ensures state == RailState(|children|, [], false, false)
      ensures styleSheets == old(styleSheets) + [Rules(dom.containerName, |children|, breakpoints)]
      ensures snapPoints == Snap.SnapPoints(Offsets(children), newScrollWidth - newClientWidth)
      ensures observer == if caps.intersectionObserver && |children| > 0 then Some(Ids(children)) else None
      ensures log == old(log) + Notification(extensions, hasOnChange, state)
      ensures Valid()
    {
      Reload(children, newScrollWidth, newClientWidth, nameSuffix);
      assert timers == old(timers) && autoPlayIntervalId == old(autoPlayIntervalId) && autoPlayTimeoutId == old(autoPlayTimeoutId);
      assert animations == old(animations) && nextAnimation == old(nextAnimation) && cancelScroll == old(cancelScroll);
      HandleStateChange();
    }

    /**
     * Calls `onDestroy`, then clears the interval, cancels the momentum
     * animation, clears the resume timeout, stops both observers and detaches
     * the listeners. Intervals an earlier `play` overwrote stay live.
     */
    method Destroy()
      requires Valid()
      modifies this`log, this`timers, this`autoPlayIntervalId, this`autoPlayTimeoutId, this`animations,
        this`cancelScroll, this`resizeObserving, this`observer, this`listening
      ensures log == old(log) + Dispatched(extensions, OnDestroy, old(state), |extensions|)
      ensures timers == old(timers).ClearInterval(old(autoPlayIntervalId)).ClearTimeout(old(autoPlayTimeoutId))
      ensures animations == CancelHandle(old(animations), old(cancelScroll))
      ensures autoPlayIntervalId.None? && autoPlayTimeoutId.None? && cancelScroll.None?
      ensures !resizeObserving && observer.None? && !listening
      ensures NoLiveAnimation(animations)
      ensures Valid()
    {
      DisconnectKeepsInvariant(dom.items, snapPoints, state, observer);
      ClearBothKeepsInvariant(timers, autoPlayIntervalId, autoPlayTimeoutId);
      CancelKeepsInvariant(animations, nextAnimation, cancelScroll);
      DispatchHook(OnDestroy, state);
      // the interval and the resume timeout, the momentum animation, then both observers and the listeners
      timers, autoPlayIntervalId, autoPlayTimeoutId := timers.ClearInterval(autoPlayIntervalId).ClearTimeout(autoPlayTimeoutId), None, None;
      animations, cancelScroll := CancelHandle(animations, cancelScroll), None;
      resizeObserving, observer, listening := false, None, false;
    }
  }

  method Create(hasScrollable: bool, dom: Dom, options: Options, caps: Capabilities, nameSuffix: string)
    returns (r: Result<MotionRail>)
    requires Distinct(Ids(dom.items))
    ensures r.Success? <==> hasScrollable
    ensures r.Failure? ==> r.error == MissingScrollable
    ensures r.Success? ==> fresh(r.value) && r.value.Valid() && r.value.options == options && r.value.dom.items == dom.items
  {
    if !hasScrollable {
      return Failure(MissingScrollable);
    }
    var rail := new MotionRail(dom, options, caps, nameSuffix);
    return Success(rail);
  }
  /** A two-item rail with autoplay on: interval 1 runs and no drag is on. */
  method AutoplayRail() returns (rail: MotionRail)
    ensures fresh(rail) && rail.Valid() && rail.autoplay && rail.listening
    ensures rail.timers.nextId == 2 && rail.drag == Idle && rail.nextAnimation == 0
  {
    var dom := Dom("", [Item(1, 0), Item(2, 100)], 300, 100);
    var options := Options(Some(true), None, None, None, false, None, None, None);
    rail := new MotionRail(dom, options, Capabilities(false, false), "x");
  }

  /** An autoplay rail after a drag and its release: autoplay is paused and the momentum animation runs. */
  method DraggedAndReleased() returns (rail: MotionRail)
    ensures fresh(rail) && rail.Valid() && rail.autoplay && !rail.drag.isDragging
    ensures rail.timers.nextId == 2 && rail.autoPlayIntervalId.None? && rail.autoPlayTimeoutId.None?
    ensures 0 in rail.animations && rail.animations[0].scheduled && !rail.animations[0].cancelled
    ensures rail.animations[0].startTime == 20.0 && rail.animations[0].duration == BaseTime
  {
    rail := AutoplayRail();
    // the drag clears interval 1 and arms no resume timeout
    rail.PointerDown(PointerEvent(7, 50.0, 10.0));
    assert rail.timers.nextId == 2 && rail.drag.velocity == 0.0;
    // the release starts momentum animation 0, lasting the base time
    rail.PointerUp(PointerEvent(7, 50.0, 20.0), 0.0, 20.0);
  }

  /**
   * `next` arms a resume timeout while the momentum animation runs; the
   * animation's `onScrollEnd` then arms a second one over the stored handle,
   * leaving the first live and unreachable.
   */
  method OrphanedResumeTimeout() returns (rail: MotionRail)
    ensures fresh(rail) && rail.Valid() && rail.autoplay
    ensures rail.timers.nextId == 4 && 2 in rail.timers.timeouts && rail.autoPlayTimeoutId == Some(3)
  {
    rail := DraggedAndReleased();
    // `next` arms resume timeout 2
    rail.Next();
    assert rail.timers.nextId == 3 && 2 in rail.timers.timeouts;
    // the animation ends: resume timeout 3 overwrites the handle of timeout 2
    rail.AnimationFrame(0, 20.0 + BaseTime);
  }

  /**
   * Both resume timeouts of `OrphanedResumeTimeout` fire: the second `play`
   * overwrites the handle of the first one's interval, and that interval
   * outlives `destroy`, which leaves the rail holding no interval handle.
   */
  method OrphanedIntervalOutlivesDestroy() returns (live: set<TimerId>, held: Option<TimerId>)
    ensures 4 in live && held.None?
  {
    var rail := OrphanedResumeTimeout();
    // timeout 2 starts interval 4, timeout 3 then overwrites its handle with interval 5
    rail.ResumeTimeout(2);
    assert rail.timers.nextId == 5 && 4 in rail.timers.intervals && 3 in rail.timers.timeouts;
    rail.ResumeTimeout(3);
    assert 4 in rail.timers.intervals && rail.autoPlayIntervalId == Some(5);
    // `destroy` clears interval 5 only
    rail.Destroy();
    live, held := rail.timers.intervals, rail.autoPlayIntervalId;
  }

  /** A rail of three items at offsets 0, 300 and 600 in a scroll range of 600, scrolled to its end. */
  method RailAtTheEnd() returns (rail: MotionRail)
    ensures fresh(rail) && rail.Valid() && rail.listening && rail.nextAnimation == 0 && rail.drag == Idle
    ensures rail.snapPoints == [0, 300, 600] && rail.scrollLeft == 600.0 && rail.ScrollRange() == 600
  {
    var dom := Dom("", [Item(1, 0), Item(2, 300), Item(3, 600)], 900, 300);
    var options := Options(None, None, None, None, false, None, None, None);
    rail := new MotionRail(dom, options, Capabilities(false, false), "x");
    assert rail.snapPoints == [0, 300, 600];
    rail.ScrollMoved(600.0);
  }

  /**
   * A rail of three items at offsets 0, 300 and 600 in a scroll range of 600,
   * scrolled to its end and dragged further past it: the browser keeps the
   * scroll at 600 while the pointer moves, then 2.25 px/ms to the right.
   */
  method DraggedPastTheEnd() returns (rail: MotionRail)
    ensures fresh(rail) && rail.Valid() && rail.listening && rail.nextAnimation == 0
    ensures rail.snapPoints == [0, 300, 600] && rail.scrollLeft == 600.0
    ensures rail.drag.isDragging && rail.drag.pointerId == Some(7) && rail.drag.velocity == 2.25
  {
    rail := RailAtTheEnd();
    rail.PointerDown(PointerEvent(7, 0.0, 0.0));
    // 400 px past the end: the scroll stays at the end of its range
    rail.PointerMove(PointerEvent(7, -400.0, 10.0));
    rail.PointerMove(PointerEvent(7, -355.0, 30.0));
  }

  /**
   * Released there, the momentum of 175 ms projects the kept position 600 to
   * 206.25, and the rail animates from 600 to the snap point 300.
   */
  method ReleasedPastTheEnd() returns (target: int, start: real)
    ensures target == 300 && start == 600.0
  {
    var rail := DraggedPastTheEnd();
    rail.PointerUp(PointerEvent(7, -355.0, 40.0), 1.5, 40.0);
    var x := Projection(600.0, 2.25, MomentumTime(1.5));
    assert x == 206.25;
    assert Snap.FirstMinimum(rail.snapPoints, x, 1);
    Snap.NearestIsUnique(rail.snapPoints, x, rail.animations[0].target, 300);
    target, start := rail.animations[0].target, rail.animations[0].startLogical;
  }
}
