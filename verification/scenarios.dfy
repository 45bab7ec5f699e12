/** Concrete runs of the viewer over small galleries. */
module Scenarios {
  import opened Wrappers
  import opened Viewer

  const Gallery: seq<Item> := [Item("a.jpg", "A"), Item("b.jpg", "B"), Item("c.jpg", "C")]

  /**
   * Open item 1 of three, press the right arrow, press escape: the viewer moves to
   * item 2, then closes with no overlay and no key handler left.
   */
  lemma OpenNavigateClose()
    ensures var afterClick := Run(Init(Gallery), [ClickLink(1)]);
            afterClick.isActive && afterClick.index == 1 && afterClick.overlays == 1 && afterClick.keyHandlers == 1
    ensures Run(Init(Gallery), [ClickLink(1), KeyDown(39)]).index == 2
    ensures var closed := Run(Init(Gallery), [ClickLink(1), KeyDown(39), KeyDown(27)]);
            !closed.isActive && closed.overlays == 0 && closed.keyHandlers == 0 && closed.display == None
  {
  }

  /**
   * Open item 0, click next before its image arrives, then let item 0's load
   * complete: the popup shows a.jpg under item 1's caption.
   */
  lemma LateLoadScenario()
    ensures var shown := Run(Init(Gallery), [ClickLink(0), NextClick, ImageLoaded("a.jpg", 400, 300, 20)]);
            && shown.index == 1
            && shown.display == Some(Display("B", Some("a.jpg"), Some(400), Some(320)))
  {
  }
}
