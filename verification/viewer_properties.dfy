/** Properties of the viewer state machine that relate several calls or events. */
module ViewerProperties {
  import opened Wrappers
  import opened Navigation
  import opened Layout
  import opened Viewer

  /** On a valid state a link click leaves exactly one key handler registered. */
  lemma ClickRegistersOneKeyHandler(s: State, n: nat)
    requires Valid(s) && n < |s.items|
    ensures HandleClickLink(s, n).keyHandlers == 1
  {
  }

  /** However the events arrive, the document never holds two key handlers. */
  lemma AtMostOneKeyHandler(items: seq<Item>, events: seq<Event>)
    ensures Run(Init(items), events).keyHandlers <= 1
    ensures Run(Init(items), events).isActive ==> Run(Init(items), events).keyHandlers == 1
  {
  }

  /** Closing twice is closing once. */
  lemma DisableIdempotent(s: State)
    ensures Disable(Disable(s)) == Disable(s)
  {
  }

  /** On a closed viewer `disable` only releases keyboard capture. */
  lemma DisableWhenInactive(s: State)
    requires !s.isActive
    ensures Disable(s) == s.(isCaptureKeyboard := false,
                             keyHandlers := if s.isCaptureKeyboard && s.keyHandlers > 0
                                            then s.keyHandlers - 1 else s.keyHandlers)
  {
  }

  /** In a reachable state a closed viewer has nothing left to release, so closing is a no-op. */
  lemma CloseWhenClosedIsNoOp(s: State)
    requires Valid(s) && !s.isActive
    ensures Step(s, CloseClick).state == s
  {
  }

  /** The escape key does what a click on the glass or the close button does. */
  lemma EscapeIsClose(s: State)
    requires Valid(s) && s.isCaptureKeyboard
    ensures Step(s, KeyDown(27)).state == Step(s, CloseClick).state
    ensures Step(s, KeyDown(27)).suppressed && !Step(s, CloseClick).suppressed
  {
  }

  /** The arrow keys do what the next and previous controls do. */
  lemma ArrowsAreNavigation(s: State)
    requires Valid(s) && s.isCaptureKeyboard
    ensures Step(s, KeyDown(39)).state == Step(s, NextClick).state
    ensures Step(s, KeyDown(37)).state == Step(s, PrevClick).state
  {
  }

  /** Any other key is swallowed without changing anything. */
  lemma OtherKeysAreSwallowed(s: State, code: int)
    requires Valid(s) && s.isCaptureKeyboard
    requires code != 39 && code != 37 && code != 27
    ensures Step(s, KeyDown(code)) == Reaction(s, None, true, false)
  {
  }

  /** `prev` undoes `next` and `next` undoes `prev` on an open viewer. */
  lemma NavigationRoundTrip(s: State)
    requires Valid(s) && s.isActive
    ensures Prev(Next(s)) == s
    ensures Next(Prev(s)) == s
  {
  }

  /** `k` clicks on the next control. */
  function NextClicks(k: nat): (r: seq<Event>)
    ensures |r| == k && forall j :: 0 <= j < k ==> r[j] == NextClick
  {
    seq(k, _ => NextClick)
  }

  /** On an open viewer `k` clicks on next only move the index, `k` steps forward. */
  lemma {:induction false} RunNextClicks(s: State, k: nat)
    requires Valid(s) && s.isActive
    ensures Run(s, NextClicks(k)) == s.(index := NextIndexN(s.index, |s.items|, k))
    decreases k
  {
    if k > 0 {
      var events := NextClicks(k);
      var t := Step(s, NextClick).state;
      assert events[1..] == NextClicks(k - 1);
      assert t == s.(index := NextIndex(s.index, |s.items|));
      RunNextClicks(t, k - 1);
      NextIndexNCompose(s.index, |s.items|, 1, k - 1);
    }
  }

  /** Clicking next once per item brings an open viewer back to where it was. */
  lemma {:induction false} NextCycle(s: State)
    requires Valid(s) && s.isActive
    ensures Run(s, NextClicks(|s.items|)) == s
  {
    RunNextClicks(s, |s.items|);
    NextIndexCycle(s.index, |s.items|);
  }

  /** A load that completes on a closed viewer changes nothing. */
  lemma LoadWhenClosedIsIgnored(s: State, source: string, w: nat, h: nat, labelHeight: nat)
    requires Valid(s) && !s.isActive
    ensures Step(s, ImageLoaded(source, w, h, labelHeight)).state == s
  {
  }

  /** In particular, a load completing after a close leaves the closed state as it is. */
  lemma LoadAfterCloseIsIgnored(s: State, source: string, w: nat, h: nat, labelHeight: nat)
    requires Valid(s)
    ensures var closed := Step(s, CloseClick).state;
            Step(closed, ImageLoaded(source, w, h, labelHeight)).state == closed
  {
  }

  /**
   * No stale-load check: when the load for item `a` completes after `next` has
   * moved on, the picture shows `a`'s image while the caption is the new item's.
   */
  lemma LateLoadMixesItems(s: State, w: nat, h: nat, labelHeight: nat)
    requires Valid(s) && s.isActive && |s.items| >= 2
    ensures var moved := Step(s, NextClick).state;
            var shown := Step(moved, ImageLoaded(s.items[s.index].href, w, h, labelHeight)).state;
            && moved.index != s.index
            && shown.display.value.src == Some(s.items[s.index].href)
            && shown.display.value.caption == s.items[moved.index].alt
  {
  }

  /**
   * Apart from a link click on an open viewer, no event breaks the pairing of
   * one mounted overlay with an open viewer and none with a closed one.
   */
  lemma OneOverlayPerSession(s: State, e: Event)
    requires Valid(s) && s.overlays == Count(s.isActive)
    requires !(e.ClickLink? && s.isActive && e.n < |s.items|)
    ensures Step(s, e).state.overlays == Count(Step(s, e).state.isActive)
  {
  }

  /** A link click on an open viewer mounts a second overlay that the next close leaves behind. */
  lemma ClickWhileOpenOrphansOverlay(s: State, n: nat)
    requires Valid(s) && s.isActive && n < |s.items|
    ensures var reopened := Step(s, ClickLink(n)).state;
            var closed := Step(reopened, CloseClick).state;
            && reopened.overlays == s.overlays + 1
            && !closed.isActive && closed.overlays == s.overlays
            && Step(closed, NextClick).threw
  {
  }
}
