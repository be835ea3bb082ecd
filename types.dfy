/**
 * The shapes shared by the engine and its extensions: breakpoints, the public
 * rail state, the options object and the extension record.
 */
module Types {
  import opened Wrappers

  /** Identity of a DOM element; `===` on elements is `==` on identities. */
  type ElementId = int

  /** A child of the item grid: its identity and its `offsetLeft`. */
  datatype Item = Item(id: ElementId, offsetLeft: int)

  /** A breakpoint as supplied; every field may be missing. */
  datatype Breakpoint = Breakpoint(width: Option<int>, columns: Option<int>, gap: Option<string>)

  /** The externally observable rail state. */
  datatype RailState = RailState(
    totalItems: nat,
    visibleItemIndexes: seq<int>,
    isFirstItemVisible: bool,
    isLastItemVisible: bool)

  /** An extension: its name and which of the three optional hooks it defines. */
  datatype Extension = Extension(name: string, hasOnInit: bool, hasOnUpdate: bool, hasOnDestroy: bool)

  /** The options object passed to the constructor; `hasOnChange` says whether `onChange` is given. */
  datatype Options = Options(
    autoplay: Option<bool>,
    resumeDelay: Option<int>,
    delay: Option<int>,
    rtl: Option<bool>,
    hasOnChange: bool,
    breakpoints: Option<seq<Breakpoint>>,
    extensions: Option<seq<Extension>>,
    containerName: Option<string>)

  /** What `getOptions` reports: the options with their defaults resolved. */
  datatype EffectiveOptions = EffectiveOptions(
    autoplay: bool,
    rtl: bool,
    delay: int,
    resumeDelay: int,
    breakpoints: seq<Breakpoint>)

  /** A call an extension's click handler makes on the engine. */
  datatype Command = Next | Prev | ScrollToIndex(index: int)

  /** The identities of a list of items, in order. */
  function Ids(items: seq<Item>): (ids: seq<ElementId>)
    ensures |ids| == |items|
    ensures forall i :: 0 <= i < |items| ==> ids[i] == items[i].id
  {
    seq(|items|, i requires 0 <= i < |items| => items[i].id)
  }

  /** The `offsetLeft` of each item, in order. */
  function Offsets(items: seq<Item>): (offs: seq<int>)
    ensures |offs| == |items|
    ensures forall i :: 0 <= i < |items| ==> offs[i] == items[i].offsetLeft
  {
    seq(|items|, i requires 0 <= i < |items| => items[i].offsetLeft)
  }
}
