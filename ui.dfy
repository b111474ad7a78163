/** The favorites migrator's interface module: keyboard navigation between
    the tab buttons, the tab switch with its ARIA state, and the loading of
    the backend-only tabs, which always fails in the client-side build. */
module Ui {
  import opened Wrappers
  import opened Seqs

  /* ---------- keyboard navigation ---------- */

  const NavigationKeys: set<string> := {"ArrowRight", "ArrowDown", "ArrowLeft", "ArrowUp", "Home", "End"}

  /** `handleTabKeydown`: the index of the tab a key moves to among `count`
      buttons, or `None` for a key the handler ignores. */
  function TabTarget(key: string, current: nat, count: nat): (r: Option<nat>)
    requires current < count
    ensures r.Some? ==> r.value < count
    ensures r.None? <==> key !in NavigationKeys
  {
    if key == "ArrowRight" || key == "ArrowDown" then Some((current + 1) % count)
    else if key == "ArrowLeft" || key == "ArrowUp" then Some((current - 1 + count) % count)
    else if key == "Home" then Some(0)
    else if key == "End" then Some(count - 1)
    else None
  }

  /** Stepping forward wraps from the last tab to the first. */
  lemma Forward(current: nat, count: nat)
    requires current < count
    ensures TabTarget("ArrowRight", current, count) == TabTarget("ArrowDown", current, count)
    ensures TabTarget("ArrowRight", current, count) == Some(if current + 1 < count then current + 1 else 0)
  {
    if current + 1 < count {
      assert (current + 1) % count == current + 1;
    } else {
      assert (current + 1) % count == 0;
    }
  }

  /** Stepping back wraps from the first tab to the last. */
  lemma Backward(current: nat, count: nat)
    requires current < count
    ensures TabTarget("ArrowLeft", current, count) == TabTarget("ArrowUp", current, count)
    ensures TabTarget("ArrowLeft", current, count) == Some(if current > 0 then current - 1 else count - 1)
  {
    if current > 0 {
      assert (current - 1 + count) % count == current - 1;
    } else {
      assert (current - 1 + count) % count == count - 1;
    }
  }

  /** The arrows step around a ring: forward then back (and back then
      forward) returns to the same tab; Home and End reach the two ends. */
  lemma ArrowsAreInverse(current: nat, count: nat)
    requires current < count
    ensures TabTarget("ArrowLeft", TabTarget("ArrowRight", current, count).value, count) == Some(current)
    ensures TabTarget("ArrowUp", TabTarget("ArrowDown", current, count).value, count) == Some(current)
    ensures TabTarget("ArrowRight", TabTarget("ArrowLeft", current, count).value, count) == Some(current)
    ensures TabTarget("Home", current, count) == Some(0) && TabTarget("End", current, count) == Some(count - 1)
  {
    Forward(current, count);
    Backward(current, count);
    var next := TabTarget("ArrowRight", current, count).value;
    var prev := TabTarget("ArrowLeft", current, count).value;
    Backward(next, count);
    Forward(prev, count);
  }

  /* ---------- tab state ---------- */

  /** The state `switchTab` writes on a tab button or panel: the `active`
      class, `aria-selected` (buttons) or `aria-hidden` (panels), and
      `tabindex`. */
  datatype TabElement = TabElement(active: bool, aria: string, tabIndex: int)

  function ButtonState(selected: bool): TabElement {
    TabElement(selected, if selected then "true" else "false", if selected then 0 else -1)
  }

  function PanelState(shown: bool): TabElement {
    TabElement(shown, if shown then "false" else "true", if shown then 0 else -1)
  }

  /** The element a `getElementById` or `querySelector` lookup for `name`
      finds among elements named `names`: the first one, if any. */
  function Lookup(names: seq<string>, name: string): (r: Option<nat>)
    ensures r.None? <==> name !in names
    ensures r.Some? ==> (r.value < |names| && names[r.value] == name &&
      forall m :: 0 <= m < r.value ==> names[m] != name)
  {
    if name in names then Some(FirstIndex(names, name)) else None
  }

  /** Element `k` is the one the lookup for `name` finds. */
  predicate Chosen(names: seq<string>, name: string, k: nat) {
    Lookup(names, name) == Some(k)
  }

  /** Exactly the first element named `name` is chosen, and none when no
      element has that name. */
  lemma ChosenIsUnique(names: seq<string>, name: string)
    ensures forall k, k' :: Chosen(names, name, k) && Chosen(names, name, k') ==> k == k'
    ensures name in names <==> exists k :: Chosen(names, name, k)
  {
    if name in names {
      assert Chosen(names, name, FirstIndex(names, name));
    }
  }

  /* ---------- backend-only tabs ---------- */

  const BackendUnavailable := "Backend endpoints not available in client-side only version. This feature requires a backend."

  datatype Response = Response(ok: bool, statusText: string)

  /** `makeAuthenticatedRequest(endpoint)`: the client-side build has no
      backend, so every request throws. */
  function MakeAuthenticatedRequest(endpoint: string): (r: Result<Response, string>)
    ensures r.Err? && r.error != []
  {
    Err(BackendUnavailable)
  }

  datatype Section = Preferences | Activity | Admin

  function Endpoint(section: Section): string {
    match section
    case Preferences => "/api/user/preferences"
    case Activity => "/api/user/activity"
    case Admin => "/api/admin/stats"
  }

  /** An error `loadMyPreferences`, `loadMyActivity` or `loadAdminData`
      shows: its section and the status text or exception message. */
  datatype LoadError = LoadError(section: Section, detail: string)

  /** One loader: `None` when the data is displayed. */
  function LoadSection(section: Section): Option<LoadError> {
    match MakeAuthenticatedRequest(Endpoint(section))
    case Ok(response) => if response.ok then None else Some(LoadError(section, response.statusText))
    case Err(message) => Some(LoadError(section, if message == [] then "Erreur inconnue" else message))
  }

  /** `loadTabData(tabName)`. */
  function LoadTabData(tabName: string): Option<LoadError> {
    if tabName == "preferences" then LoadSection(Preferences)
    else if tabName == "activity" then LoadSection(Activity)
    else if tabName == "admin" then LoadSection(Admin)
    else None
  }

  /** Opening the preferences, activity or admin tab always ends in an
      error carrying the exception's message; other tabs load nothing. */
  lemma LoadTabDataAlwaysFails(tabName: string)
    ensures LoadTabData(tabName).Some? <==> tabName in {"preferences", "activity", "admin"}
    ensures LoadTabData(tabName).Some? ==> LoadTabData(tabName).value.detail == MakeAuthenticatedRequest("").error
  {
  }

  /** `UIModule`: the current tab and the tab buttons and panels of the
      page, each named by its `data-tab` or `id`. */
  class UiModule {
    var currentTab: string
    var buttonTabs: seq<string>
    var panelIds: seq<string>
    var buttons: seq<TabElement>
    var panels: seq<TabElement>

    predicate Valid()
      reads this
    {
      |buttons| == |buttonTabs| && |panels| == |panelIds|
    }

    constructor(buttonTabs: seq<string>, panelIds: seq<string>, buttons: seq<TabElement>, panels: seq<TabElement>)
      requires |buttons| == |buttonTabs| && |panels| == |panelIds|
      ensures Valid() && currentTab == "migration"
      ensures this.buttonTabs == buttonTabs && this.panelIds == panelIds
      ensures this.buttons == buttons && this.panels == panels
    {
      currentTab := "migration";
      this.buttonTabs := buttonTabs;
      this.panelIds := panelIds;
      this.buttons := buttons;
      this.panels := panels;
    }

    /** `switchTab(tabName)`: every panel is hidden and every button
        deselected, then the panel with that id and the button with that
        `data-tab` (if present) are shown and selected. `currentTab` is set
        even when neither exists, and the tab's data is loaded. */
    method SwitchTab(tabName: string) returns (shown: Option<LoadError>)
      requires Valid()
      modifies this
      ensures Valid() && buttonTabs == old(buttonTabs) && panelIds == old(panelIds)
      ensures forall k :: 0 <= k < |panels| ==> panels[k] == PanelState(Chosen(panelIds, tabName, k))
      ensures forall k :: 0 <= k < |buttons| ==> buttons[k] == ButtonState(Chosen(buttonTabs, tabName, k))
      ensures currentTab == tabName
      ensures shown == LoadTabData(tabName)
    {
      var i := 0;
      while i < |panels|
        invariant 0 <= i <= |panels| == |panelIds|
        invariant buttonTabs == old(buttonTabs) && panelIds == old(panelIds) && buttons == old(buttons)
        invariant forall k :: 0 <= k < i ==> panels[k] == PanelState(false)
      {
        panels := panels[i := PanelState(false)];
        i := i + 1;
      }
      i := 0;
      while i < |buttons|
        invariant 0 <= i <= |buttons| == |buttonTabs|
        invariant buttonTabs == old(buttonTabs) && panelIds == old(panelIds)
        invariant |panels| == |panelIds| && forall k :: 0 <= k < |panels| ==> panels[k] == PanelState(false)
        invariant forall k :: 0 <= k < i ==> buttons[k] == ButtonState(false)
      {
        buttons := buttons[i := ButtonState(false)];
        i := i + 1;
      }
      var selectedContent := Lookup(panelIds, tabName);
      if selectedContent.Some? {
        panels := panels[selectedContent.value := PanelState(true)];
      }
      var selectedButton := Lookup(buttonTabs, tabName);
      if selectedButton.Some? {
        buttons := buttons[selectedButton.value := ButtonState(true)];
      }
      currentTab := tabName;
      shown := LoadTabData(tabName);
    }

    /** `handleTabKeydown(e, currentIndex, tabButtons)`: a navigation key
        switches to the target button's tab; any other key changes nothing. */
    method HandleTabKeydown(key: string, currentIndex: nat) returns (shown: Option<LoadError>)
      requires Valid() && currentIndex < |buttonTabs|
      modifies this
      ensures Valid()
      ensures TabTarget(key, currentIndex, |old(buttonTabs)|).None? ==> unchanged(this) && shown.None?
      ensures TabTarget(key, currentIndex, |old(buttonTabs)|).Some? ==>
        var name := old(buttonTabs)[TabTarget(key, currentIndex, |old(buttonTabs)|).value];
        currentTab == name && buttonTabs == old(buttonTabs) && panelIds == old(panelIds) &&
        (forall k :: 0 <= k < |panels| ==> panels[k] == PanelState(Chosen(panelIds, name, k))) &&
        (forall k :: 0 <= k < |buttons| ==> buttons[k] == ButtonState(Chosen(buttonTabs, name, k))) &&
        shown == LoadTabData(name)
    {
      var target := TabTarget(key, currentIndex, |buttonTabs|);
      if target.None? {
        return None;
      }
      shown := SwitchTab(buttonTabs[target.value]);
    }
  }

  /** After a switch to a tab whose button exists, exactly that button is
      selected. */
  lemma SwitchSelectsOne(names: seq<string>, name: string, states: seq<TabElement>)
    requires |states| == |names| && name in names
    requires forall k :: 0 <= k < |states| ==> states[k] == ButtonState(Chosen(names, name, k))
    ensures exists k :: 0 <= k < |states| && states[k].active && names[k] == name
    ensures forall k, k' :: 0 <= k < |states| && 0 <= k' < |states| && states[k].active && states[k'].active ==> k == k'
  {
    ChosenIsUnique(names, name);
    var k: nat :| Chosen(names, name, k);
    assert k < |states| && states[k].active;
  }
}
