/**
 * A tabbed property sheet page that shows decoration-image counts on its
 * tabs (TabbedPropertySheetPageWithDecorations, a test fixture).
 */
module TabDecorations {

  /** A tab item; the page keys its decoration map by the item. */
  datatype TabItem = TabItem(id: nat, text: string)

  /** The number of decoration images a tab with text `text` gets. */
  function DecorationCount(text: string): (n: int)
    ensures text == "Name" ==> n == 5
    ensures text == "Message" ==> n == 3
    ensures text != "Name" && text != "Message" ==> n == 0
  {
    if text == "Name" then 5 else if text == "Message" then 3 else 0
  }

  /** A decoration map for `tabs`: exactly the tabs as keys, each with its count. */
  ghost predicate DecorationsFor(tabs: seq<TabItem>, m: map<TabItem, int>) {
    m.Keys == (set t | t in tabs) &&
    forall t :: t in m ==> m[t] == DecorationCount(t.text)
  }

  /** `getImageDecorationsForTabs`: fill a fresh map, tab by tab. */
  method GetImageDecorationsForTabs(tabs: seq<TabItem>) returns (m: map<TabItem, int>)
    ensures m.Keys == (set t | t in tabs)
    ensures forall i :: 0 <= i < |tabs| ==> m[tabs[i]] == DecorationCount(tabs[i].text)
    ensures forall t :: t in m ==> m[t] in {0, 3, 5}
  {
    m := map[];
    for i := 0 to |tabs|
      invariant m.Keys == set t | t in tabs[..i]
      invariant forall t :: t in m ==> m[t] == DecorationCount(t.text)
    {
      assert tabs[..i + 1] == tabs[..i] + [tabs[i]];
      if tabs[i].text == "Name" {
        m := m[tabs[i] := 5];
      } else if tabs[i].text == "Message" {
        m := m[tabs[i] := 3];
      } else {
        m := m[tabs[i] := 0];
      }
    }
    assert tabs[..|tabs|] == tabs;
  }

  /** What `updateTabs` hands to the tab list, when it hands anything. */
  datatype ListUpdate = SetDynamicImageCount(counts: map<TabItem, int>)

  class TabbedPropertySheetPageWithDecorations {
    var useDecorations: bool
    /** The tab descriptors the superclass has been asked to show, in order. */
    var shownTabs: seq<seq<TabItem>>
    /** The decoration maps passed to the tab list, in order. */
    var listUpdates: seq<ListUpdate>

    constructor ()
      ensures !useDecorations && shownTabs == [] && listUpdates == []
    {
      useDecorations := false;
      shownTabs := [];
      listUpdates := [];
    }

    /** `useDecorations(v)`: sets the flag and nothing else. */
    method UseDecorations(v: bool)
      modifies this
      ensures useDecorations == v
      ensures shownTabs == old(shownTabs) && listUpdates == old(listUpdates)
    {
      useDecorations := v;
    }

    /** `updateTabs`: show the tabs, then set their decoration counts only when decorations are on. */
    method UpdateTabs(descriptors: seq<TabItem>)
      modifies this
      ensures useDecorations == old(useDecorations)
      ensures shownTabs == old(shownTabs) + [descriptors]
      ensures !useDecorations ==> listUpdates == old(listUpdates)
      ensures useDecorations ==> |listUpdates| == |old(listUpdates)| + 1 &&
                                 listUpdates[..|old(listUpdates)|] == old(listUpdates) &&
                                 DecorationsFor(descriptors, listUpdates[|old(listUpdates)|].counts)
    {
      shownTabs := shownTabs + [descriptors];
      if useDecorations {
        var counts := GetImageDecorationsForTabs(descriptors);
        listUpdates := listUpdates + [SetDynamicImageCount(counts)];
      }
    }
  }
}
