/**
 * The `Lightbox` viewer as a pure state machine. Every handler of
 * `Lightbox.prototype` becomes a function from the viewer's state to its next
 * state; `Step` dispatches one delivered DOM event to the handler the page has
 * wired to it, and `Run` replays a sequence of events.
 *
 * Two counters record what the handlers do to the document: `keyHandlers` is the
 * number of `keydown` listeners the viewer has registered on the document, and
 * `overlays` the number of glass-and-popup pairs it has appended to the page.
 */
module Viewer {
  import opened Wrappers
  import opened Navigation
  import opened Layout

  /** A gallery link: its `href` (the full-size image) and the `alt` text of its thumbnail. */
  datatype Item = Item(href: string, alt: string)

  /** What the current popup shows: caption text, picture source and inline size. */
  datatype Display = Display(caption: string, src: Option<string>,
                             width: Option<nat>, height: Option<nat>)

  /** A freshly built popup: empty caption, no picture source, no inline size. */
  const Blank: Display := Display("", None, None, None)

  /**
   * The viewer's fields. `index` stands for `null` by 0 before the first click;
   * `display` is the popup and picture the viewer currently references.
   */
  datatype State = State(
    items: seq<Item>,
    index: nat,
    isActive: bool,
    isCaptureKeyboard: bool,
    keyHandlers: nat,
    overlays: nat,
    display: Option<Display>)

  /** The DOM events the viewer reacts to. */
  datatype Event =
    | ClickLink(n: nat)       // click on the thumbnail of gallery link `n`
    | KeyDown(code: int)      // key press reaching the document
    | CloseClick              // click on the glass or on the close button
    | NextClick               // click on the next button or on the picture
    | PrevClick               // click on the previous button
    | ImageLoaded(source: string, naturalWidth: nat, naturalHeight: nat, labelHeight: nat)

  /**
   * What handling one event produced: the next state, the image load it started
   * (if any), whether the event's default action and propagation were stopped,
   * and whether the handler threw.
   */
  datatype Reaction = Reaction(state: State, load: Option<string>, suppressed: bool, threw: bool)

  /** 1 for true and 0 for false: how many of a thing exist when `b` says one does. */
  function Count(b: bool): nat {
    if b then 1 else 0
  }

  /** The invariant every reachable state keeps. */
  predicate Valid(s: State) {
    && (|s.items| > 0 ==> s.index < |s.items|)
    && (|s.items| == 0 ==> s.overlays == 0)
    && s.isCaptureKeyboard == s.isActive
    && s.keyHandlers == Count(s.isCaptureKeyboard)
    && s.display.Some? == s.isActive
    && s.overlays >= Count(s.isActive)
  }

  /** The state `initialize` leaves: closed, nothing registered, nothing mounted. */
  function Init(items: seq<Item>): (s: State)
    ensures Valid(s)
    ensures !s.isActive && !s.isCaptureKeyboard && s.keyHandlers == 0 && s.overlays == 0
  {
    State(items, 0, false, false, 0, 0, None)
  }

  /**
   * `handleClickLink` for link `n`: opens the viewer on item `n`, mounts a new
   * overlay, and registers the key handler only if none is registered yet.
   */
  function HandleClickLink(s: State, n: nat): (r: State)
    requires n < |s.items|
    ensures r.items == s.items && r.index == n
    ensures r.isActive && r.isCaptureKeyboard
    ensures r.keyHandlers == s.keyHandlers + Count(!s.isCaptureKeyboard)
    ensures r.overlays == s.overlays + 1
    ensures r.display == Some(Blank)
  {
    s.(index := n, isActive := true, overlays := s.overlays + 1, display := Some(Blank),
       keyHandlers := if s.isCaptureKeyboard then s.keyHandlers else s.keyHandlers + 1,
       isCaptureKeyboard := true)
  }

  /**
   * `disable`: releases keyboard capture if held, then, only if the viewer is
   * active, removes the current overlay and drops the popup. Removing a listener
   * or node that is not there does nothing, hence the guards at 0.
   */
  function Disable(s: State): (r: State)
    ensures !r.isActive && !r.isCaptureKeyboard
    ensures r.items == s.items && r.index == s.index
    ensures r.keyHandlers == if s.isCaptureKeyboard && s.keyHandlers > 0
                             then s.keyHandlers - 1 else s.keyHandlers
    ensures s.isActive ==> r.display == None
    ensures s.isActive && s.overlays > 0 ==> r.overlays == s.overlays - 1
    ensures !s.isActive ==> r.overlays == s.overlays && r.display == s.display
  {
    var released :=
      if s.isCaptureKeyboard
      then s.(keyHandlers := if s.keyHandlers > 0 then s.keyHandlers - 1 else 0,
              isCaptureKeyboard := false)
      else s;
    if !released.isActive then released
    else released.(overlays := if released.overlays > 0 then released.overlays - 1 else 0,
                   display := None, isActive := false)
  }

  /** `next` on an open viewer: moves to the following item, wrapping to the first. */
  function Next(s: State): (r: State)
    requires s.isActive && |s.items| >= 1
    ensures r == s.(index := r.index)
    ensures r.index < |s.items|
    ensures s.index < |s.items| ==> r.index == (s.index + 1) % |s.items|
  {
    s.(index := NextIndex(s.index, |s.items|))
  }

  /** `prev` on an open viewer: moves to the preceding item, wrapping to the last. */
  function Prev(s: State): (r: State)
    requires s.isActive && |s.items| >= 1
    ensures r == s.(index := r.index)
    ensures s.index < |s.items| ==> r.index < |s.items|
    ensures s.index < |s.items| ==> r.index == (s.index + |s.items| - 1) % |s.items|
  {
    s.(index := PrevIndex(s.index, |s.items|))
  }

  /** `next` or `prev` as a reaction: the move plus the load it starts for the new item. */
  function Navigate(s: State, forward: bool): (r: Reaction)
    requires s.isActive && s.index < |s.items|
    ensures r.state == (if forward then Next(s) else Prev(s))
    ensures r.state.index < |s.items| && r.load == Some(s.items[r.state.index].href)
    ensures !r.suppressed && !r.threw
  {
    var t := if forward then Next(s) else Prev(s);
    Reaction(t, Some(s.items[t.index].href), false, false)
  }

  /**
   * `keyDownHandler` on an open viewer: right arrow (39) is `next`, left arrow (37)
   * is `prev`, escape (27) is `disable`; every key, handled or not, has its default
   * action and propagation stopped.
   */
  function KeyDownHandler(s: State, code: int): (r: Reaction)
    requires s.isActive && s.index < |s.items|
    ensures r.suppressed && !r.threw
    ensures code == 39 ==> r.state == Next(s) && r.load == Some(s.items[r.state.index].href)
    ensures code == 37 ==> r.state == Prev(s) && r.load == Some(s.items[r.state.index].href)
    ensures code == 27 ==> r.state == Disable(s) && r.load == None
    ensures code != 39 && code != 37 && code != 27 ==> r.state == s && r.load == None
  {
    var handled :=
      if code == 39 then Navigate(s, true)
      else if code == 37 then Navigate(s, false)
      else if code == 27 then Reaction(Disable(s), None, false, false)
      else Reaction(s, None, false, false);
    handled.(suppressed := true)
  }

  /**
   * `_loadImageHandler` for a completed load of `source`: ignored unless the viewer
   * is active; otherwise the caption comes from the CURRENT item, the picture source
   * from the completed load, and the size from `SetDimensions`.
   */
  function LoadImageHandler(s: State, source: string, naturalWidth: nat, naturalHeight: nat,
                            labelHeight: nat): (r: State)
    requires s.isActive ==> s.index < |s.items| && s.display.Some?
    ensures !s.isActive ==> r == s
    ensures s.isActive ==> r == s.(display := r.display) && r.display.Some?
    ensures s.isActive ==> r.display.value.caption == s.items[s.index].alt
    ensures s.isActive ==> r.display.value.src == Some(source)
    ensures s.isActive ==>
      var d := s.display.value;
      Size(r.display.value.width.GetOr(0), r.display.value.height.GetOr(0))
        == SetDimensions(naturalWidth, naturalHeight, d.width, d.height, labelHeight)
  {
    if !s.isActive then s
    else
      var size := SetDimensions(naturalWidth, naturalHeight,
                                s.display.value.width, s.display.value.height, labelHeight);
      s.(display := Some(Display(s.items[s.index].alt, Some(source),
                                 Some(size.width), Some(size.height))))
  }

  /** An event no listener received. */
  function Ignored(s: State): Reaction {
    Reaction(s, None, false, false)
  }

  /**
   * Delivers one event. A link click reaches `handleClickLink` only for an existing
   * link; a key press reaches `keyDownHandler` only while it is registered; the
   * next/previous controls exist only while some overlay is mounted, and used on a
   * closed viewer (an overlay left behind) they move the index and then throw,
   * because the viewer no longer holds a picture.
   */
  function Step(s: State, e: Event): (r: Reaction)
    requires Valid(s)
    ensures Valid(r.state)
    ensures r.state.items == s.items
    ensures r.suppressed <==> (e.ClickLink? && e.n < |s.items|) || (e.KeyDown? && s.isCaptureKeyboard)
    ensures r.threw <==> (e.NextClick? || e.PrevClick?) && !s.isActive && s.overlays > 0
    ensures r.load.Some? ==> r.state.isActive && r.load == Some(s.items[r.state.index].href)
    ensures e.ClickLink? && e.n < |s.items| ==> r.load == Some(s.items[e.n].href)
    ensures r.load.Some? <==>
      || (e.ClickLink? && e.n < |s.items|)
      || (s.isActive && (e.NextClick? || e.PrevClick? || (e.KeyDown? && (e.code == 39 || e.code == 37))))
  {
    match e
    case ClickLink(n) =>
      if n < |s.items| then Reaction(HandleClickLink(s, n), Some(s.items[n].href), true, false)
      else Ignored(s)
    case KeyDown(code) =>
      if s.isCaptureKeyboard then KeyDownHandler(s, code) else Ignored(s)
    case CloseClick =>
      Reaction(Disable(s), None, false, false)
    case NextClick =>
      if s.isActive then Navigate(s, true)
      else if s.overlays > 0 then Reaction(s.(index := NextIndex(s.index, |s.items|)), None, false, true)
      else Ignored(s)
    case PrevClick =>
      if s.isActive then Navigate(s, false)
      else if s.overlays > 0 then Reaction(s.(index := PrevIndex(s.index, |s.items|)), None, false, true)
      else Ignored(s)
    case ImageLoaded(source, w, h, labelHeight) =>
      Reaction(LoadImageHandler(s, source, w, h, labelHeight), None, false, false)
  }

  /** The state after delivering `events` in order. */
  function Run(s: State, events: seq<Event>): (r: State)
    requires Valid(s)
    ensures Valid(r)
    ensures r.items == s.items
    decreases |events|
  {
    if events == [] then s else Run(Step(s, events[0]).state, events[1..])
  }
}
