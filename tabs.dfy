/**
 * The tab switcher: a `Tabs` region holds one active value, each trigger sets
 * it, and each content panel renders only while its value is the active one.
 * Panels and triggers read the value from the enclosing `Tabs`, so here they
 * take that `Tabs` object as an argument instead of finding it by context.
 */
module Tabs {

  /** The value the page's FAQ section starts with. */
  const DefaultPanel: string := "mission"

  /** The panels the page's FAQ section declares, in order. */
  const PagePanels: seq<string> := ["mission", "faq", "insights"]

  /** A content panel with value `panel` renders when the active value is `active`. */
  predicate PanelVisible(active: string, panel: string) {
    active == panel
  }

  /** The panels, out of `panels`, that render while `active` is the active value. */
  function Rendered(active: string, panels: seq<string>): (r: seq<string>)
    ensures |r| <= |panels|
    ensures forall k | 0 <= k < |r| :: r[k] == active
    ensures r == [] <==> active !in panels
  {
    if panels == [] then []
    else (if PanelVisible(active, panels[0]) then [panels[0]] else []) + Rendered(active, panels[1..])
  }

  /** Among panels with distinct values, at most one renders, and it is the active one when present. */
  lemma {:induction false} RenderedAtMostOne(active: string, panels: seq<string>)
    requires forall i, j | 0 <= i < j < |panels| :: panels[i] != panels[j]
    ensures Rendered(active, panels) == if active in panels then [active] else []
  {
    if panels != [] {
      RenderedAtMostOne(active, panels[1..]);
      if panels[0] == active {
        assert active !in panels[1..] by {
          forall k | 0 <= k < |panels[1..]| ensures panels[1..][k] != active {
            assert panels[1..][k] == panels[k + 1];
          }
        }
      }
    }
  }

  class TabsState {
    /** The active value, `useState(defaultValue)`. */
    var value: string

    constructor (defaultValue: string)
      ensures value == defaultValue
    {
      value := defaultValue;
    }

    /** A trigger click: `setValue(v)`. */
    method Select(v: string)
      modifies this
      ensures value == v
    {
      value := v;
    }

    /** The trigger for `v` is drawn as selected. */
    predicate TriggerActive(v: string)
      reads this
    {
      value == v
    }

    /** Whether the content panel for `panel` renders (anything but `null`). */
    predicate ContentRendered(panel: string)
      reads this
    {
      PanelVisible(value, panel)
    }
  }

  /**
   * On the page, whichever of the three panels is active (the default one
   * first, then whichever trigger was clicked last), it alone renders.
   */
  lemma PageShowsActiveOnly(active: string)
    requires active in PagePanels
    ensures Rendered(active, PagePanels) == [active]
    ensures DefaultPanel in PagePanels
  {
    RenderedAtMostOne(active, PagePanels);
  }
}
