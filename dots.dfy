/**
 * The dots extension: one button per item that scrolls the rail to it, the
 * buttons of the visible items marked active, and the dot row scrolled to
 * the first active dot. The container and the dots are records held by the
 * extension; a click is the `Command` its handler issues on the rail, which
 * the host performs with `MotionRail.Perform`.
 */
module Dots {
  import opened Wrappers
  import opened Types
  import opened Decimal
  import Visibility

  const Name: string := "DotsExtension"
  const ContainerClass: string := "motionrail-dots"
  const DefaultDotSize: int := 34
  const DefaultFontSize: int := 12
  const LabelPrefix: string := "Go to item "

  /** The factory's parameter object; every field may be missing, and so may the object. */
  datatype Params = Params(showIndex: Option<bool>, dotSize: Option<int>, fontSize: Option<int>, log: Option<bool>)

  /** A dot (class `motionrail-dot`): its `aria-label`, its text if any, the command its click issues, and whether it has the class `motionrail-dot-active`. */
  datatype Dot = Dot(ariaLabel: string, text: Option<string>, onClick: Command, active: bool)

  /**
   * The dot row: its class, the sizes its custom properties are set to,
   * whether its inline `display` is `none`, whether it is still in the
   * document, and the dots it was asked to centre on, in order.
   */
  datatype Container = Container(className: string, dotSize: int, fontSize: int, hidden: bool, attached: bool, centredOn: seq<nat>)

  /** The `aria-label` of dot `i`. */
  function Label(i: nat): string {
    LabelPrefix + ToDecimal(i + 1)
  }

  /** Dot `i` as `onInit` creates it. */
  function NewDot(i: nat, showIndex: bool): Dot {
    Dot(Label(i), if showIndex then Some(ToDecimal(i + 1)) else None, ScrollToIndex(i), false)
  }

  /** No two dots share a label. */
  lemma LabelsDistinct(i: nat, j: nat)
    ensures Label(i) == Label(j) ==> i == j
  {
    if Label(i) == Label(j) {
      assert Label(i)[|LabelPrefix|..] == ToDecimal(i + 1);
      assert Label(j)[|LabelPrefix|..] == ToDecimal(j + 1);
      ToDecimalInjective(i + 1, j + 1);
    }
  }

  /**
   * The dot the row is centred on after an update: the first visible item's,
   * when that dot exists; so a visible item's dot, and with the indexes sorted
   * the leftmost one.
   */
  function Centring(vis: seq<int>, count: nat): (r: seq<nat>)
    ensures |r| <= 1
    ensures r != [] <==> |vis| > 0 && 0 <= vis[0] < count
    ensures r != [] ==> r[0] == vis[0]
    ensures forall k :: k in r ==> k in vis && k < count
    ensures Visibility.Sorted(vis) ==> forall k, j :: k in r && 0 <= j < |vis| ==> k <= vis[j]
  {
    if |vis| > 0 && 0 <= vis[0] < count then [vis[0]] else []
  }

  class DotsExtension {
    const showIndex: bool
    const dotSize: int
    const fontSize: int
    const log: bool

    var container: Option<Container>
    var dots: seq<Dot>
    /** The states passed to `console.log`, in order. */
    var logs: seq<RailState>

    /** Dots exist only once the container does. */
    ghost predicate Valid()
      reads this
    {
      container.None? ==> dots == []
    }

    /** `Dots(par)`: the parameters with their defaults; no container and no dot yet. */
    constructor (par: Option<Params>)
      ensures showIndex == (par.Some? && par.value.showIndex.Some? && par.value.showIndex.value)
      ensures dotSize == if par.Some? && par.value.dotSize.Some? then par.value.dotSize.value else DefaultDotSize
      ensures fontSize == if par.Some? && par.value.fontSize.Some? then par.value.fontSize.value else DefaultFontSize
      ensures log == (par.Some? && par.value.log.Some? && par.value.log.value)
      ensures container.None? && dots == [] && logs == []
      ensures Valid()
    {
      var p := if par.Some? then par.value else Params(None, None, None, None);
      showIndex := if p.showIndex.Some? then p.showIndex.value else false;
      dotSize := if p.dotSize.Some? then p.dotSize.value else DefaultDotSize;
      fontSize := if p.fontSize.Some? then p.fontSize.value else DefaultFontSize;
      log := if p.log.Some? then p.log.value else false;
      container := None;
      dots := [];
      logs := [];
    }

    /**
     * `onInit`: nothing for an empty rail; otherwise creates the row and one
     * dot per item, dot `i` labelled with `i + 1`, showing `i + 1` when
     * `showIndex` is set, and scrolling the rail to item `i`.
     */
    method OnInit(state: RailState)
      requires Valid()
      modifies this`container, this`dots
      ensures state.totalItems == 0 ==> container == old(container) && dots == old(dots)
      ensures state.totalItems != 0 ==>
        && container == Some(Container(ContainerClass, dotSize, fontSize, false, true, []))
        && |dots| == |old(dots)| + state.totalItems
        && dots[..|old(dots)|] == old(dots)
        && (forall i :: 0 <= i < state.totalItems ==> dots[|old(dots)| + i] == NewDot(i, showIndex))
      ensures Valid()
    {
      if state.totalItems == 0 {
        return;
      }
      container := Some(Container(ContainerClass, dotSize, fontSize, false, true, []));
      for i := 0 to state.totalItems
        invariant container == Some(Container(ContainerClass, dotSize, fontSize, false, true, []))
        invariant |dots| == |old(dots)| + i
        invariant dots[..|old(dots)|] == old(dots)
        invariant forall k :: 0 <= k < i ==> dots[|old(dots)| + k] == NewDot(k, showIndex)
      {
        var dot := Dot(Label(i), None, ScrollToIndex(i), false);
        if showIndex {
          dot := dot.(text := Some(ToDecimal(i + 1)));
        }
        dots := dots + [dot];
      }
    }

    /**
     * `onUpdate`: nothing before the row exists; hides the row of an empty
     * rail; otherwise shows the row, marks exactly the dots of visible items
     * active, centres the row on the first visible item's dot, and logs the
     * state when asked.
     */
    method OnUpdate(state: RailState)
      requires Valid()
      modifies this`container, this`dots, this`logs
      ensures old(container).None? ==> unchanged(this)
      ensures old(container).Some? && state.totalItems == 0 ==>
        container == Some(old(container).value.(hidden := true)) && dots == old(dots) && logs == old(logs)
      ensures old(container).Some? && state.totalItems != 0 ==>
        var c := old(container).value;
        && |dots| == |old(dots)|
        && (forall i :: 0 <= i < |dots| ==> dots[i] == old(dots[i]).(active := i in state.visibleItemIndexes))
        && container == Some(c.(hidden := false, centredOn := c.centredOn + Centring(state.visibleItemIndexes, |dots|)))
        && logs == old(logs) + (if log then [state] else [])
      ensures old(container).Some? && state.totalItems != 0 ==>
        forall i :: 0 <= i < |dots| ==> (dots[i].active <==> i in state.visibleItemIndexes)
      ensures old(container).Some? && state.totalItems != 0 ==>
        forall k :: k in Centring(state.visibleItemIndexes, |dots|) ==> dots[k].active
      ensures Valid()
    {
      var vis := state.visibleItemIndexes;
      if container.None? {
        return;
      }
      if state.totalItems == 0 {
        container := Some(container.value.(hidden := true));
        return;
      }
      var c := container.value.(hidden := false);
      for index := 0 to |dots|
        invariant container == old(container) && logs == old(logs)
        invariant |dots| == |old(dots)|
        invariant forall i :: 0 <= i < index ==> dots[i] == old(dots[i]).(active := i in vis)
        invariant forall i :: index <= i < |dots| ==> dots[i] == old(dots[i])
      {
        if index in vis {
          dots := dots[index := dots[index].(active := true)];
        } else {
          dots := dots[index := dots[index].(active := false)];
        }
      }
      if |vis| > 0 {
        var first := vis[0];
        if 0 <= first < |dots| {
          c := c.(centredOn := c.centredOn + [first]);
        }
      }
      assert c == old(container).value.(hidden := false, centredOn := old(container).value.centredOn + Centring(vis, |dots|));
      container := Some(c);
      if log {
        logs := logs + [state];
      }
    }

    /** `onDestroy`: removes the row from the document, if it exists, and empties the dot list. */
    method OnDestroy()
      modifies this`container, this`dots
      ensures container == if old(container).Some? then Some(old(container).value.(attached := false)) else None
      ensures dots == []
      ensures Valid()
    {
      if container.Some? {
        container := Some(container.value.(attached := false));
      }
      dots := [];
    }
  }

  /** On an empty rail `onInit` creates nothing, and `onUpdate` then changes nothing. */
  method EmptyRailHasNoDots(par: Option<Params>, init: RailState, later: RailState)
    returns (row: Option<Container>, created: seq<Dot>, logged: seq<RailState>)
    requires init.totalItems == 0
    ensures row.None? && created == [] && logged == []
  {
    var ext := new DotsExtension(par);
    ext.OnInit(init);
    ext.OnUpdate(later);
    row, created, logged := ext.container, ext.dots, ext.logs;
  }

  /**
   * After `onInit` and one `onUpdate` of a non-empty rail, there is one dot
   * per item, dot `i` scrolls to item `i`, and it is active exactly when
   * item `i` is visible.
   */
  method InitThenUpdate(par: Option<Params>, init: RailState, later: RailState)
    returns (created: seq<Dot>)
    requires init.totalItems != 0 && later.totalItems != 0
    ensures |created| == init.totalItems
    ensures forall i :: 0 <= i < |created| ==>
      created[i].onClick == ScrollToIndex(i) && (created[i].active <==> i in later.visibleItemIndexes)
  {
    var ext := new DotsExtension(par);
    ext.OnInit(init);
    ghost var initial := ext.dots;
    ext.OnUpdate(later);
    created := ext.dots;
    forall i | 0 <= i < |created|
      ensures created[i].onClick == ScrollToIndex(i)
    {
      assert initial[i] == NewDot(i, ext.showIndex);
    }
  }

  /** `onDestroy` leaves no dot, and a later `onUpdate` marks none. */
  method DestroyThenUpdate(par: Option<Params>, init: RailState, later: RailState)
    returns (created: seq<Dot>)
    ensures created == []
  {
    var ext := new DotsExtension(par);
    ext.OnInit(init);
    ext.OnDestroy();
    ext.OnUpdate(later);
    created := ext.dots;
  }
}
