/**
 * Extension dispatch: each hook is called, in registration order, on every
 * extension that defines it, with one state snapshot; the calls are recorded
 * as events appended to a log.
 */
module Hooks {
  import opened Types

  datatype Hook = OnInit | OnUpdate | OnDestroy

  /** A recorded call: a hook of the extension at position `ext`, or the `onChange` callback. */
  datatype Event = HookCall(hook: Hook, ext: nat, state: RailState) | ChangeCallback(state: RailState)

  predicate Defines(e: Extension, h: Hook) {
    match h
    case OnInit => e.hasOnInit
    case OnUpdate => e.hasOnUpdate
    case OnDestroy => e.hasOnDestroy
  }

  /** The calls a `forEach` over the first `n` extensions makes for hook `h`. */
  function Dispatched(exts: seq<Extension>, h: Hook, s: RailState, n: nat): seq<Event>
    requires n <= |exts|
  {
    if n == 0 then []
    else Dispatched(exts, h, s, n - 1) + (if Defines(exts[n - 1], h) then [HookCall(h, n - 1, s)] else [])
  }

  /** What `handleStateChange` emits: `onUpdate` on every extension, then `onChange` when given. */
  function Notification(exts: seq<Extension>, hasOnChange: bool, s: RailState): seq<Event> {
    Dispatched(exts, OnUpdate, s, |exts|) + (if hasOnChange then [ChangeCallback(s)] else [])
  }

  /**
   * The dispatch calls exactly the extensions that define the hook, each once,
   * in registration order, all with the same snapshot.
   */
  lemma {:induction false} DispatchedExactlyInOrder(exts: seq<Extension>, h: Hook, s: RailState, n: nat)
    requires n <= |exts|
    ensures forall k :: 0 <= k < |Dispatched(exts, h, s, n)| ==>
      var e := Dispatched(exts, h, s, n)[k];
      e.HookCall? && e.hook == h && e.state == s && e.ext < n && Defines(exts[e.ext], h)
    ensures forall k, m :: 0 <= k < m < |Dispatched(exts, h, s, n)| ==>
      Dispatched(exts, h, s, n)[k].ext < Dispatched(exts, h, s, n)[m].ext
    ensures forall i :: 0 <= i < n && Defines(exts[i], h) ==> HookCall(h, i, s) in Dispatched(exts, h, s, n)
  {
    if n > 0 {
      DispatchedExactlyInOrder(exts, h, s, n - 1);
    }
  }

  /** A notification holds one `onUpdate` per defining extension and ends with `onChange` when one is given. */
  lemma NotificationShape(exts: seq<Extension>, hasOnChange: bool, s: RailState)
    ensures |Notification(exts, hasOnChange, s)| > 0 ==> hasOnChange || exists i :: 0 <= i < |exts| && exts[i].hasOnUpdate
    ensures hasOnChange ==> Notification(exts, hasOnChange, s)[|Notification(exts, hasOnChange, s)| - 1] == ChangeCallback(s)
    ensures forall i :: 0 <= i < |exts| && exts[i].hasOnUpdate ==> HookCall(OnUpdate, i, s) in Notification(exts, hasOnChange, s)
  {
    DispatchedExactlyInOrder(exts, OnUpdate, s, |exts|);
    var d := Dispatched(exts, OnUpdate, s, |exts|);
    if |d| > 0 {
      assert d[0] in d;
    }
  }
}
