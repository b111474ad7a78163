/** The shared accessible Tabs component: one button and one panel per tab,
    wired to each other through ARIA ids; a click or a navigation key makes
    exactly one tab active. The DOM nodes are values in two sequences the
    component updates in place; the random id suffixes are parameters. */
module Tabs {
  import opened Wrappers
  import opened Strings
  import Ui

  /** A tab button: its id, the panel it controls, the `active` class,
      `aria-selected` ("true"/"false") and `tabindex` (0 or -1). */
  datatype Button = Button(id: string, controls: string, active: bool, selected: bool, tabIndex: int)

  /** A tab panel: its id, the button labelling it, the `active` class,
      `aria-hidden` and `tabindex`. */
  datatype Panel = Panel(id: string, labelledBy: string, active: bool, hidden: bool, tabIndex: int)

  /** The id of tab `i`: "tab-", the index, "-", a random suffix. */
  function TabId(i: nat, suffix: string): string {
    "tab-" + NatToDecimal(i) + "-" + suffix
  }

  /** The id of panel `i`: "tabpanel-", the index, "-", a random suffix. */
  function PanelId(i: nat, suffix: string): string {
    "tabpanel-" + NatToDecimal(i) + "-" + suffix
  }

  /** Button `i` as the construction loop leaves it; `wasActive` is whether
      the button already carried the `active` class, which the loop adds to
      button 0 and never removes from the others. */
  function InitialButton(i: nat, tabSuffix: string, panelSuffix: string, wasActive: bool): Button {
    Button(TabId(i, tabSuffix), PanelId(i, panelSuffix), i == 0 || wasActive, i == 0, if i == 0 then 0 else -1)
  }

  /** Panel `i` as the construction loop leaves it. */
  function InitialPanel(i: nat, tabSuffix: string, panelSuffix: string): Panel {
    Panel(PanelId(i, panelSuffix), TabId(i, tabSuffix), i == 0, i != 0, 0)
  }

  function InitialButtons(tabSuffixes: seq<string>, panelSuffixes: seq<string>, preActive: seq<bool>): (r: seq<Button>)
    requires |tabSuffixes| == |panelSuffixes| == |preActive|
    ensures |r| == |tabSuffixes|
    ensures forall i :: 0 <= i < |r| ==> r[i] == InitialButton(i, tabSuffixes[i], panelSuffixes[i], preActive[i])
  {
    seq(|tabSuffixes|, i requires 0 <= i < |tabSuffixes| => InitialButton(i, tabSuffixes[i], panelSuffixes[i], preActive[i]))
  }

  function InitialPanels(tabSuffixes: seq<string>, panelSuffixes: seq<string>): (r: seq<Panel>)
    requires |tabSuffixes| == |panelSuffixes|
    ensures |r| == |tabSuffixes|
    ensures forall i :: 0 <= i < |r| ==> r[i] == InitialPanel(i, tabSuffixes[i], panelSuffixes[i])
  {
    seq(|tabSuffixes|, i requires 0 <= i < |tabSuffixes| => InitialPanel(i, tabSuffixes[i], panelSuffixes[i]))
  }

  /** One step of `switchTab`'s loop on a button and on a panel. */
  function SwitchedButton(b: Button, isActive: bool): Button {
    b.(active := isActive, selected := isActive, tabIndex := if isActive then 0 else -1)
  }

  function SwitchedPanel(p: Panel, isActive: bool): Panel {
    p.(active := isActive, hidden := !isActive)
  }

  function SwitchButtons(bs: seq<Button>, index: nat): (r: seq<Button>)
    ensures |r| == |bs|
    ensures forall j :: 0 <= j < |bs| ==> r[j] == SwitchedButton(bs[j], j == index)
  {
    seq(|bs|, j requires 0 <= j < |bs| => SwitchedButton(bs[j], j == index))
  }

  function SwitchPanels(ps: seq<Panel>, index: nat): (r: seq<Panel>)
    ensures |r| == |ps|
    ensures forall j :: 0 <= j < |ps| ==> r[j] == SwitchedPanel(ps[j], j == index)
  {
    seq(|ps|, j requires 0 <= j < |ps| => SwitchedPanel(ps[j], j == index))
  }

  /** Button `i` controls panel `i`, and panel `i` is labelled by button `i`. */
  predicate Wired(bs: seq<Button>, ps: seq<Panel>) {
    |bs| == |ps| && forall i :: 0 <= i < |bs| ==> bs[i].controls == ps[i].id && ps[i].labelledBy == bs[i].id
  }

  /** Tab `k` is the one active tab: its button is active, selected and
      focusable, its panel active and shown; every other button is inactive,
      unselected and out of the tab order, every other panel hidden. */
  predicate OnlyActive(bs: seq<Button>, ps: seq<Panel>, k: nat) {
    |bs| == |ps| && k < |bs|
    && (forall i :: 0 <= i < |bs| ==>
          (bs[i].active <==> i == k) && (bs[i].selected <==> i == k)
          && bs[i].tabIndex == (if i == k then 0 else -1))
    && (forall i :: 0 <= i < |ps| ==> (ps[i].active <==> i == k) && (ps[i].hidden <==> i != k))
  }

  class TabGroup {
    var buttons: seq<Button>
    var panels: seq<Panel>
    /** The button last given focus. */
    var focused: Option<nat>

    predicate Valid()
      reads this
    {
      |buttons| == |panels| && (focused.Some? ==> focused.value < |buttons|)
    }

    /** `Tabs({ children })`: one tab per child, with the suffixes drawn for
        its button and panel ids and whether its button already carried the
        `active` class. */
    constructor(tabSuffixes: seq<string>, panelSuffixes: seq<string>, preActive: seq<bool>)
      requires |tabSuffixes| == |panelSuffixes| == |preActive|
      ensures Valid() && focused == None
      ensures buttons == InitialButtons(tabSuffixes, panelSuffixes, preActive)
      ensures panels == InitialPanels(tabSuffixes, panelSuffixes)
    {
      var bs: seq<Button> := [];
      var ps: seq<Panel> := [];
      var i := 0;
      while i < |tabSuffixes|
        invariant 0 <= i <= |tabSuffixes| && |bs| == i && |ps| == i
        invariant forall j :: 0 <= j < i ==> bs[j] == InitialButton(j, tabSuffixes[j], panelSuffixes[j], preActive[j])
        invariant forall j :: 0 <= j < i ==> ps[j] == InitialPanel(j, tabSuffixes[j], panelSuffixes[j])
      {
        var tabId := TabId(i, tabSuffixes[i]);
        var panelId := PanelId(i, panelSuffixes[i]);
        var b := Button(tabId, panelId, preActive[i], i == 0, if i == 0 then 0 else -1);
        var p := Panel(panelId, tabId, false, false, 0);
        if i == 0 {
          b := b.(active := true);
          p := p.(active := true, hidden := false);
        } else {
          p := p.(active := false, hidden := true);
        }
        bs := bs + [b];
        ps := ps + [p];
        i := i + 1;
      }
      buttons := bs;
      panels := ps;
      focused := None;
    }

    /** `switchTab(index)`: every button and panel is switched on or off,
        then button `index` takes focus. */
    method SwitchTab(index: nat)
      requires Valid() && index < |buttons|
      modifies this
      ensures Valid()
      ensures buttons == SwitchButtons(old(buttons), index)
      ensures panels == SwitchPanels(old(panels), index)
      ensures focused == Some(index)
    {
      var j := 0;
      while j < |buttons|
        invariant 0 <= j <= |buttons| == |old(buttons)| && |panels| == |old(panels)| == |buttons|
        invariant forall k :: 0 <= k < j ==> buttons[k] == SwitchedButton(old(buttons)[k], k == index)
        invariant forall k :: j <= k < |buttons| ==> buttons[k] == old(buttons)[k]
        invariant forall k :: 0 <= k < j ==> panels[k] == SwitchedPanel(old(panels)[k], k == index)
        invariant forall k :: j <= k < |panels| ==> panels[k] == old(panels)[k]
      {
        var isActive := j == index;
        buttons := buttons[j := SwitchedButton(buttons[j], isActive)];
        panels := panels[j := SwitchedPanel(panels[j], isActive)];
        j := j + 1;
      }
      focused := Some(index);
    }

    /** `handleKeyDown(e, currentIndex)`: a navigation key switches to the
        tab it names; any other key changes nothing. */
    method HandleKeyDown(key: string, currentIndex: nat)
      requires Valid() && currentIndex < |buttons|
      modifies this
      ensures Valid()
      ensures match Ui.TabTarget(key, currentIndex, |old(buttons)|)
        case None =>
          buttons == old(buttons) && panels == old(panels) && focused == old(focused)
        case Some(target) =>
          buttons == SwitchButtons(old(buttons), target) && panels == SwitchPanels(old(panels), target)
          && focused == Some(target)
    {
      var target := Ui.TabTarget(key, currentIndex, |buttons|);
      if target.Some? {
        SwitchTab(target.value);
      }
    }
  }

  // ----- Exclusivity -----

  /** After switching to `index`, tab `index` is the only active one, and the
      ARIA wiring is untouched. */
  lemma SwitchMakesOnlyActive(bs: seq<Button>, ps: seq<Panel>, index: nat)
    requires |bs| == |ps| && index < |bs|
    ensures OnlyActive(SwitchButtons(bs, index), SwitchPanels(ps, index), index)
    ensures Wired(bs, ps) ==> Wired(SwitchButtons(bs, index), SwitchPanels(ps, index))
  {
  }

  /** Switching to the tab that is already the only active one changes
      nothing. */
  lemma SwitchIdempotent(bs: seq<Button>, ps: seq<Panel>, index: nat)
    requires OnlyActive(bs, ps, index)
    ensures SwitchButtons(bs, index) == bs && SwitchPanels(ps, index) == ps
  {
    assert forall j :: 0 <= j < |bs| ==> SwitchButtons(bs, index)[j] == bs[j];
    assert forall j :: 0 <= j < |ps| ==> SwitchPanels(ps, index)[j] == ps[j];
  }

  /** Built from tabs whose buttons carry no `active` class, tab 0 is the
      only active one, and every button and panel is wired to its partner. */
  lemma InitiallyFirst(tabSuffixes: seq<string>, panelSuffixes: seq<string>, preActive: seq<bool>)
    requires |tabSuffixes| == |panelSuffixes| == |preActive|
    ensures Wired(InitialButtons(tabSuffixes, panelSuffixes, preActive), InitialPanels(tabSuffixes, panelSuffixes))
    ensures |tabSuffixes| > 0 && (forall i :: 0 <= i < |preActive| ==> !preActive[i])
            ==> OnlyActive(InitialButtons(tabSuffixes, panelSuffixes, preActive), InitialPanels(tabSuffixes, panelSuffixes), 0)
  {
  }

  /** A later button that already carried the `active` class keeps it while
      its panel starts hidden. */
  lemma PreActiveButtonStays(tabSuffixes: seq<string>, panelSuffixes: seq<string>, preActive: seq<bool>, i: nat)
    requires |tabSuffixes| == |panelSuffixes| == |preActive|
    requires 0 < i < |preActive| && preActive[i]
    ensures InitialButtons(tabSuffixes, panelSuffixes, preActive)[i].active
    ensures InitialPanels(tabSuffixes, panelSuffixes)[i].hidden
  {
  }

  // ----- Ids -----

  lemma DecimalHasNoDash(n: nat)
    ensures '-' !in NatToDecimal(n)
  {
    var d := NatToDecimal(n);
    forall k | 0 <= k < |d| ensures d[k] != '-' {
      assert '0' <= d[k] <= '9';
    }
  }

  /** The text after a fixed prefix splits at its first '-' into the index
      digits and the suffix. */
  lemma IdParts(prefix: string, i: nat, suffix: string)
    ensures var id := prefix + NatToDecimal(i) + "-" + suffix;
      UpTo(id[|prefix|..], '-') == Some((NatToDecimal(i), suffix))
  {
    var id := prefix + NatToDecimal(i) + "-" + suffix;
    assert id[|prefix|..] == NatToDecimal(i) + ['-'] + suffix;
    DecimalHasNoDash(i);
    UpToFirst(NatToDecimal(i), '-', suffix);
  }

  /** Tab ids determine their index and suffix, so no two tabs share an id;
      likewise for panel ids. */
  lemma IdsInjective(i: nat, s: string, j: nat, t: string)
    ensures TabId(i, s) == TabId(j, t) ==> i == j && s == t
    ensures PanelId(i, s) == PanelId(j, t) ==> i == j && s == t
  {
    IdParts("tab-", i, s);
    IdParts("tab-", j, t);
    IdParts("tabpanel-", i, s);
    IdParts("tabpanel-", j, t);
    if NatToDecimal(i) == NatToDecimal(j) {
      DecimalInjective(i, j);
    }
  }

  /** No tab id is a panel id. */
  lemma TabIdIsNotPanelId(i: nat, s: string, j: nat, t: string)
    ensures TabId(i, s) != PanelId(j, t)
  {
    assert TabId(i, s)[3] == '-' && PanelId(j, t)[3] == 'p';
  }
}
