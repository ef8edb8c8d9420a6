/** What each workspace operation leaves, in the store's own terms (src/stores/workspace-store.ts). */
module WorkspaceEffects {
  import opened Common
  import opened Workspace
  import opened WorkspaceLaws

  // ------------------------------------------------------------ finding the pane

  /** The pane that a call for `paneId` works on: the first one of that name. */
  predicate IsPane(s: State, p: nat, paneId: string) {
    && p < |s.panes| && s.panes[p].id == paneId
    && forall q: nat :: q < p ==> s.panes[q].id != paneId
  }

  lemma PaneIsFound(s: State, p: nat, paneId: string)
    requires IsPane(s, p, paneId)
    ensures PaneIndex(s.panes, paneId) == p
  {
  }

  predicate Filled(x: Option<string>) { x.Some? && |x.value| > 0 }

  /** A tab goes to the pane asked for, else to the focused one, else to the first, else to "pane-1". */
  lemma TargetIs(s: State, target: Option<string>)
    ensures Filled(target) ==> TargetPane(s, target) == target.value
    ensures !Filled(target) && s.focusedPaneId != "" ==> TargetPane(s, target) == s.focusedPaneId
    ensures !Filled(target) && s.focusedPaneId == "" && |s.panes| > 0 && s.panes[0].id != "" ==>
              TargetPane(s, target) == s.panes[0].id
    ensures !Filled(target) && s.focusedPaneId == "" && (s.panes == [] || s.panes[0].id == "") ==>
              TargetPane(s, target) == "pane-1"
  {
  }

  // ------------------------------------------------------------ a resource that is open already

  predicate AsksForResource(d: TabData) { Filled(d.conversationId) || Filled(d.toolId) || Filled(d.projectId) }

  predicate ShownAt(s: State, tabIds: seq<string>, k: nat, d: TabData) {
    k < |tabIds| && tabIds[k] in s.tabs && Shows(s.tabs[tabIds[k]], d)
  }

  lemma {:induction false} FirstShownIsFound(s: State, tabIds: seq<string>, d: TabData, k: nat)
    requires ShownAt(s, tabIds, k, d) && forall j: nat :: j < k ==> !ShownAt(s, tabIds, j, d)
    ensures MatchIndex(s, tabIds, d) == k
    decreases k
  {
    if k > 0 {
      assert !ShownAt(s, tabIds, 0, d);
      forall j: nat | j < k - 1 ensures !ShownAt(s, tabIds[1..], j, d) {
        assert !ShownAt(s, tabIds, j + 1, d);
      }
      FirstShownIsFound(s, tabIds[1..], d, k - 1);
    }
  }

  /** A resource that some tab of the pane shows is not opened again: its first tab is activated, nothing
      else is touched, and the focus moves only if another tab was active. */
  lemma ReopeningActivates(s: State, d: TabData, target: Option<string>, newId: string, p: nat, k: nat)
    requires IsPane(s, p, TargetPane(s, target)) && AsksForResource(d)
    requires ShownAt(s, s.panes[p].tabIds, k, d)
    requires forall j: nat :: j < k ==> !ShownAt(s, s.panes[p].tabIds, j, d)
    ensures var (pane, tid) := (s.panes[p], s.panes[p].tabIds[k]);
            OpenedTab(s, d, target, newId) ==
            (if pane.activeTabId == Some(tid) then s
             else State(s.layoutKind, s.panes[p := Pane(pane.id, pane.tabIds, Some(tid))], pane.id, s.tabs, s.splitRatios),
             tid)
  {
    PaneIsFound(s, p, TargetPane(s, target));
    FirstShownIsFound(s, s.panes[p].tabIds, d, k);
  }

  /** Nothing in the target pane shows the resource, or there is no resource to look for. */
  ghost predicate OpensNew(s: State, d: TabData, target: Option<string>) {
    AsksForResource(d) ==>
      forall p: nat, k: nat :: IsPane(s, p, TargetPane(s, target)) ==> !ShownAt(s, s.panes[p].tabIds, k, d)
  }

  lemma NothingIsReopened(s: State, d: TabData, target: Option<string>)
    requires OpensNew(s, d, target)
    ensures AlreadyOpen(s, TargetPane(s, target), d) == None
  {
    var p := PaneIndex(s.panes, TargetPane(s, target));
    if p < |s.panes| && NamesResource(d) {
      var k := MatchIndex(s, s.panes[p].tabIds, d);
      assert IsPane(s, p, TargetPane(s, target));
      assert !ShownAt(s, s.panes[p].tabIds, k, d);
    }
  }

  // ------------------------------------------------------------ a new tab

  predicate HasId(d: TabData, newId: string, id: string) { id == if Filled(d.id) then d.id.value else newId }

  /** The entry of a new tab: the caller's data, closable unless the caller said no. */
  predicate IsEntry(t: Tab, id: string, d: TabData) {
    && t.id == id && t.kind == d.kind && t.title == d.title && t.conversationId == d.conversationId
    && t.toolId == d.toolId && t.projectId == d.projectId && t.view == d.view
    && t.closable == Some(match d.closable case Some(false) => false case _ => true)
  }

  /** `next` is `s` with `tabIds` in pane `p`, the new tab active, the pane focused and tab `gone` away. */
  ghost predicate PutIn(s: State, next: State, p: nat, tabIds: seq<string>, id: string, d: TabData, gone: set<string>) {
    && p < |s.panes| && next.panes == s.panes[p := Pane(s.panes[p].id, tabIds, Some(id))]
    && next.focusedPaneId == s.panes[p].id && next.layoutKind == s.layoutKind && next.splitRatios == s.splitRatios
    && next.tabs.Keys == (s.tabs.Keys + {id}) - gone
    && (id in next.tabs ==> IsEntry(next.tabs[id], id, d))
    && forall t :: t in next.tabs && t != id ==> next.tabs[t] == s.tabs[t]
  }

  /** The pane shows one tab only, a chat that has not begun. */
  predicate IsEmptyChat(s: State, p: nat, only: string) {
    && p < |s.panes| && s.panes[p].tabIds == [only]
    && only in s.tabs && s.tabs[only].kind == Chat && !Filled(s.tabs[only].conversationId)
  }

  lemma EmptyChatMakesWay(s: State, d: TabData, target: Option<string>, newId: string, p: nat, only: string)
    requires IsPane(s, p, TargetPane(s, target)) && OpensNew(s, d, target) && AsksForResource(d)
    requires IsEmptyChat(s, p, only) && s.tabs[only].id == only
    ensures var (next, id) := OpenedTab(s, d, target, newId);
            HasId(d, newId, id) && PutIn(s, next, p, [id], id, d, {only})
  {
    PaneIsFound(s, p, TargetPane(s, target));
    NothingIsReopened(s, d, target);
  }

  /** The new tab does not take the place of an empty chat. */
  ghost predicate Joins(s: State, p: nat, d: TabData) {
    p < |s.panes| && (AsksForResource(d) ==> forall only :: !IsEmptyChat(s, p, only))
  }

  lemma JoinsOthers(s: State, p: nat, d: TabData)
    requires Joins(s, p, d)
    ensures !Replaces(s, s.panes[p], d)
  {
    if Replaces(s, s.panes[p], d) {
      assert s.panes[p].tabIds == [s.panes[p].tabIds[0]];
      assert IsEmptyChat(s, p, s.panes[p].tabIds[0]);
    }
  }

  /** Below twenty tabs the new one comes last and no tab goes. */
  lemma NewTabComesLast(s: State, d: TabData, target: Option<string>, newId: string, p: nat)
    requires IsPane(s, p, TargetPane(s, target)) && OpensNew(s, d, target) && Joins(s, p, d)
    requires |s.panes[p].tabIds| < 20
    ensures var (next, id) := OpenedTab(s, d, target, newId);
            HasId(d, newId, id) && PutIn(s, next, p, s.panes[p].tabIds + [id], id, d, {})
  {
    PaneIsFound(s, p, TargetPane(s, target));
    NothingIsReopened(s, d, target);
    JoinsOthers(s, p, d);
  }

  /** A tab that may go: not the active one, and not marked as one to keep. */
  predicate MayGo(s: State, p: nat, k: nat) {
    && p < |s.panes| && k < |s.panes[p].tabIds| && s.panes[p].activeTabId != Some(s.panes[p].tabIds[k])
    && (s.panes[p].tabIds[k] in s.tabs ==>
          match s.tabs[s.panes[p].tabIds[k]].closable case Some(false) => false case _ => true)
  }

  lemma {:induction false} FirstPrunableIs(s: State, pane: Pane, tabIds: seq<string>, id: string, k: nat)
    requires k < |tabIds| && tabIds[k] != id && Prunable(s, pane, tabIds[k])
    requires forall j: nat :: j < k ==> tabIds[j] == id || !Prunable(s, pane, tabIds[j])
    ensures PrunableIndex(s, pane, tabIds, id) == k
    decreases k
  {
    if k > 0 {
      forall j: nat | j < k - 1 ensures tabIds[1..][j] == id || !Prunable(s, pane, tabIds[1..][j]) {
        assert tabIds[1..][j] == tabIds[j + 1];
      }
      FirstPrunableIs(s, pane, tabIds[1..], id, k - 1);
    }
  }

  lemma RoomIsMade(s: State, p: nat, k: nat, id: string)
    requires MayGo(s, p, k) && (forall j: nat :: j < k ==> !MayGo(s, p, j))
    requires Distinct(s.panes[p].tabIds) && id !in s.panes[p].tabIds
    ensures var pane := s.panes[p];
            var grown := pane.tabIds + [id];
            && PrunableIndex(s, pane, grown, id) == k && grown[k] == pane.tabIds[k]
            && Without(grown, grown[k]) == pane.tabIds[..k] + pane.tabIds[k + 1..] + [id]
  {
    var pane := s.panes[p];
    var grown := pane.tabIds + [id];
    forall j: nat | j < k ensures grown[j] == id || !Prunable(s, pane, grown[j]) {
      assert !MayGo(s, p, j);
    }
    FirstPrunableIs(s, pane, grown, id, k);
    assert Distinct(grown);
    WithoutSplits(grown, k);
    assert grown[..k] + grown[k + 1..] == pane.tabIds[..k] + pane.tabIds[k + 1..] + [id];
  }

  /** From twenty tabs on, the first one that may go makes room. */
  lemma FirstThatMayGoGoes(s: State, d: TabData, target: Option<string>, newId: string, p: nat, k: nat)
    requires IsPane(s, p, TargetPane(s, target)) && OpensNew(s, d, target) && Joins(s, p, d)
    requires |s.panes[p].tabIds| >= 20 && Distinct(s.panes[p].tabIds)
    requires IdFor(d, newId) !in s.panes[p].tabIds
    requires MayGo(s, p, k) && forall j: nat :: j < k ==> !MayGo(s, p, j)
    ensures var tabIds, (next, id) := s.panes[p].tabIds, OpenedTab(s, d, target, newId);
            HasId(d, newId, id) && PutIn(s, next, p, tabIds[..k] + tabIds[k + 1..] + [id], id, d, {tabIds[k]})
  {
    PaneIsFound(s, p, TargetPane(s, target));
    NothingIsReopened(s, d, target);
    JoinsOthers(s, p, d);
    RoomIsMade(s, p, k, IdFor(d, newId));
  }

  /** If none may go, the pane grows beyond twenty. */
  lemma PinnedPaneGrows(s: State, d: TabData, target: Option<string>, newId: string, p: nat)
    requires IsPane(s, p, TargetPane(s, target)) && OpensNew(s, d, target) && Joins(s, p, d)
    requires forall k: nat :: !MayGo(s, p, k)
    ensures var (next, id) := OpenedTab(s, d, target, newId);
            HasId(d, newId, id) && PutIn(s, next, p, s.panes[p].tabIds + [id], id, d, {})
  {
    var pane, id := s.panes[p], IdFor(d, newId);
    var grown := pane.tabIds + [id];
    PaneIsFound(s, p, TargetPane(s, target));
    NothingIsReopened(s, d, target);
    JoinsOthers(s, p, d);
    var k := PrunableIndex(s, pane, grown, id);
    if k < |grown| {
      assert !MayGo(s, p, k);
    }
  }

  /** A pane that is not there is added after the others, with the new tab alone. */
  lemma MissingPaneIsAdded(s: State, d: TabData, target: Option<string>, newId: string)
    requires forall p: nat :: p < |s.panes| ==> s.panes[p].id != TargetPane(s, target)
    ensures var (next, id) := OpenedTab(s, d, target, newId);
            && HasId(d, newId, id) && next.panes == s.panes + [Pane(TargetPane(s, target), [id], Some(id))]
            && next.focusedPaneId == TargetPane(s, target)
            && next.layoutKind == s.layoutKind && next.splitRatios == s.splitRatios
            && next.tabs.Keys == s.tabs.Keys + {id} && IsEntry(next.tabs[id], id, d)
            && forall t :: t in s.tabs && t != id ==> next.tabs[t] == s.tabs[t]
  {
    assert PaneIndex(s.panes, TargetPane(s, target)) == |s.panes|;
  }

  // ------------------------------------------------------------ layouts

  predicate IsFreshChat(t: Tab, id: string) {
    && t.id == id && t.kind == Chat && t.title == "New chat" && t.closable == Some(false) && t.view == None
    && t.conversationId == None && t.toolId == None && t.projectId == None
  }

  /** `next` is `s` with the pane added at the end, holding a fresh chat, unless it is there already. */
  ghost predicate PaneAdded(s: State, next: State, paneId: string, tabId: string) {
    if exists p: nat :: IsPane(s, p, paneId) then next == s
    else
      && next.panes == s.panes + [Pane(paneId, [tabId], Some(tabId))]
      && next.tabs.Keys == s.tabs.Keys + {tabId} && IsFreshChat(next.tabs[tabId], tabId)
      && (forall t :: t in s.tabs && t != tabId ==> next.tabs[t] == s.tabs[t])
      && next.layoutKind == s.layoutKind && next.focusedPaneId == s.focusedPaneId && next.splitRatios == s.splitRatios
  }

  lemma PaneIsEnsured(s: State, paneId: string, tabId: string)
    ensures PaneAdded(s, WithPane(s, paneId, tabId), paneId, tabId)
  {
    var k := PaneIndex(s.panes, paneId);
    if k < |s.panes| {
      assert IsPane(s, k, paneId);
    } else {
      forall p: nat ensures !IsPane(s, p, paneId) {
      }
    }
  }

  /** The panes of these names are added one after the other. */
  ghost predicate PanesAdded(s: State, next: State, names: seq<string>, newTab: nat -> string)
    decreases |names|
  {
    if names == [] then next == s
    else
      var init, last := names[..|names| - 1], names[|names| - 1];
      exists mid: State :: PaneAdded(mid, next, last, newTab(|names|)) && PanesAdded(s, mid, init, newTab)
  }

  function AllPanes(): seq<string> { ["pane-1", "pane-2", "pane-3", "pane-4"] }

  lemma {:induction false} PanesAreAdded(s: State, count: nat, newTab: nat -> string)
    requires count <= 4
    ensures PanesAdded(s, WithPanes(s, count, newTab), AllPanes()[..count], newTab)
    decreases count
  {
    if count > 0 {
      var names, mid := AllPanes()[..count], WithPanes(s, count - 1, newTab);
      PanesAreAdded(s, count - 1, newTab);
      assert names[..count - 1] == AllPanes()[..count - 1];
      assert PaneName(count) == AllPanes()[count - 1];
      PaneIsEnsured(mid, names[count - 1], newTab(count));
    }
  }

  /** A layout adds the panes it needs from "pane-1" up: one, two, two, three or four. */
  lemma LayoutIsBuilt(s: State, kind: LayoutKind, newTab: nat -> string)
    ensures var next := LaidOut(s, kind, newTab);
            && next.layoutKind == kind
            && PanesAdded(s, next.(layoutKind := s.layoutKind),
                 if kind == Single then ["pane-1"]
                 else if kind == SplitVertical || kind == SplitHorizontal then ["pane-1", "pane-2"]
                 else if kind == SplitThree then ["pane-1", "pane-2", "pane-3"]
                 else ["pane-1", "pane-2", "pane-3", "pane-4"], newTab)
  {
    var n := RequiredPanes(kind);
    PanesAreAdded(s, n, newTab);
    WithPanesLayout(s, n, newTab);
    assert AllPanes()[..1] == ["pane-1"] && AllPanes()[..2] == ["pane-1", "pane-2"];
    assert AllPanes()[..3] == ["pane-1", "pane-2", "pane-3"] && AllPanes()[..4] == AllPanes();
  }

  lemma {:induction false} WithPanesLayout(s: State, count: nat, newTab: nat -> string)
    requires count <= 4
    ensures WithPanes(s, count, newTab).layoutKind == s.layoutKind
    decreases count
  {
    if count > 0 { WithPanesLayout(s, count - 1, newTab); }
  }

  // ------------------------------------------------------------ tabs within a pane

  /** The pane a call without a target works on is the focused one. */
  predicate Meant(s: State, target: Option<string>, paneId: string) {
    paneId == if Filled(target) then target.value else s.focusedPaneId
  }

  /** A tab that is not active becomes it, and its pane gets the focus. */
  lemma ActivatingIs(s: State, tabId: string, target: Option<string>, paneId: string, p: nat)
    requires Meant(s, target, paneId) && IsPane(s, p, paneId)
    ensures ActivatedTab(s, tabId, target) ==
              if s.panes[p].activeTabId == Some(tabId) then s
              else State(s.layoutKind, s.panes[p := Pane(paneId, s.panes[p].tabIds, Some(tabId))], paneId, s.tabs,
                         s.splitRatios)
  {
    PaneIsFound(s, p, paneId);
  }

  /** In a pane that is not there, nothing can be activated, closed or moved. */
  lemma MissingPaneDoesNothing(s: State, tabId: string, target: Option<string>, paneId: string, newId: string,
                               from: int, to: int)
    requires Meant(s, target, paneId) && forall p: nat :: !IsPane(s, p, paneId)
    ensures ActivatedTab(s, tabId, target) == s && ClosedTab(s, tabId, target, newId) == s
    ensures Reordered(s, paneId, from, to) == s
  {
    var k := PaneIndex(s.panes, paneId);
    if k < |s.panes| {
      assert IsPane(s, k, paneId);
    }
  }

  /** A pane whose only tab is closed gets a fresh chat, as active tab. */
  lemma ClosingTheOnlyTab(s: State, tabId: string, target: Option<string>, paneId: string, newId: string, p: nat)
    requires Meant(s, target, paneId) && IsPane(s, p, paneId)
    requires s.panes[p].tabIds == [tabId] && s.panes[p].activeTabId == Some(tabId)
    ensures var next := ClosedTab(s, tabId, target, newId);
            && next.panes == s.panes[p := Pane(paneId, [newId], Some(newId))] && next.focusedPaneId == s.focusedPaneId
            && next.tabs.Keys == s.tabs.Keys - {tabId} + {newId} && IsFreshChat(next.tabs[newId], newId)
            && forall t :: t in s.tabs && t != tabId && t != newId ==> next.tabs[t] == s.tabs[t]
  {
    PaneIsFound(s, p, paneId);
    CloseTheOnly(s, p, tabId, newId);
  }

  /** A move within bounds shifts the tab to its new place and keeps the order of the others; any other
      changes nothing. */
  lemma ReorderingIs(s: State, paneId: string, from: int, to: int, p: nat)
    requires IsPane(s, p, paneId)
    ensures var tabIds, next := s.panes[p].tabIds, Reordered(s, paneId, from, to);
            if 0 <= from < |tabIds| && 0 <= to < |tabIds| then
              && |next.panes| == |s.panes| && |next.panes[p].tabIds| == |tabIds|
              && next == s.(panes := s.panes[p := Pane(paneId, next.panes[p].tabIds, s.panes[p].activeTabId)])
              && next.panes[p].tabIds[to] == tabIds[from]
              && next.panes[p].tabIds[..to] + next.panes[p].tabIds[to + 1..] == tabIds[..from] + tabIds[from + 1..]
            else next == s
  {
    PaneIsFound(s, p, paneId);
    if 0 <= from < |s.panes[p].tabIds| && 0 <= to < |s.panes[p].tabIds| {
      ReorderThereAndBack(s.panes[p].tabIds, from, to);
    }
  }

  /** Focusing a pane and setting the ratios change nothing else. */
  lemma SettingsAreSet(s: State, paneId: string, ratios: seq<real>)
    ensures Step(s, SetFocusedPane(paneId)) == State(s.layoutKind, s.panes, paneId, s.tabs, s.splitRatios)
    ensures Step(s, SetSplitRatios(ratios)) == State(s.layoutKind, s.panes, s.focusedPaneId, s.tabs, ratios)
  {
  }

  /** The steps of a session are the store's operations. */
  lemma PaneStepsAreCalls(s: State, kind: LayoutKind, newTab: nat -> string, paneId: string, newId: string, r: Resources)
    ensures Step(s, SetLayout(kind, newTab)) == LaidOut(s, kind, newTab)
    ensures Step(s, EnsurePane(paneId, newId)) == WithPane(s, paneId, newId)
    ensures Step(s, ReconcileResources(r)) == Reconcile(s, r)
  {
  }

  lemma TabStepIsCall(s: State, e: Event)
    ensures e.OpenTab? ==> Step(s, e) == OpenedTab(s, e.data, e.target, e.newId).0
    ensures e.CloseTab? ==> Step(s, e) == ClosedTab(s, e.tabId, e.target, e.newId)
    ensures e.ActivateTab? ==> Step(s, e) == ActivatedTab(s, e.tabId, e.target)
    ensures e.ReorderTabs? ==> Step(s, e) == Reordered(s, e.paneId, e.from, e.to)
  {
  }

  // ------------------------------------------------------------ resources that are gone

  predicate Gone(x: Option<string>, known: set<string>) { Filled(x) && x.value !in known }

  /** A tab keeps everything but its title and the one resource that is gone. */
  lemma GoneResourceEmptiesTheTab(s: State, r: Resources, t: string)
    requires t in s.tabs
    ensures var (tab, now) := (s.tabs[t], Reconcile(s, r).tabs[t]);
            && (tab.kind == Chat && Gone(tab.conversationId, r.conversationIds) ==>
                  now == Tab(tab.id, Chat, "New chat", None, tab.toolId, tab.projectId, tab.view, tab.closable))
            && (tab.kind == App && Gone(tab.toolId, r.toolIds) ==>
                  now == Tab(tab.id, App, "App unavailable", tab.conversationId, None, tab.projectId, tab.view, tab.closable))
            && (tab.kind == Project && Gone(tab.projectId, r.projectIds) ==>
                  now == Tab(tab.id, Project, "Project unavailable", tab.conversationId, tab.toolId, None, tab.view,
                             tab.closable))
  {
  }

  // ------------------------------------------------------------ loading

  lemma {:induction false} KeptOfConcat(a: seq<string>, b: seq<string>, tabs: map<string, Tab>)
    ensures Kept(a + b, tabs) == Kept(a, tabs) + Kept(b, tabs)
    decreases |b|
  {
    if b == [] {
      assert a + b == a;
    } else {
      assert (a + b)[..|a + b| - 1] == a + b[..|b| - 1];
      KeptOfConcat(a, b[..|b| - 1], tabs);
    }
  }

  lemma KeptOfOne(t: string, tabs: map<string, Tab>)
    ensures Kept([t], tabs) == if t in tabs then [t] else []
  {
  }

  /** None of the stored panes names the tab that would replace its missing ones. */
  ghost predicate NewIds(panes: seq<Pane>, newId: string -> string) {
    forall i: nat, j: nat :: i < |panes| && j < |panes| ==> newId(panes[j].id) !in panes[i].tabIds
  }

  /** `now` is the stored pane without the tabs the store does not know. */
  ghost predicate IsRestored(p: Pane, tabs: map<string, Tab>, fresh': string, now: Pane) {
    && now.id == p.id
    && now.tabIds == (if Kept(p.tabIds, tabs) == [] then [fresh'] else Kept(p.tabIds, tabs))
    && |now.tabIds| > 0 && now.activeTabId ==
         if exists k: nat :: k < |now.tabIds| && Some(now.tabIds[k]) == p.activeTabId then p.activeTabId
         else Some(now.tabIds[0])
  }

  lemma {:induction false} KeptDepends(tabIds: seq<string>, tabs: map<string, Tab>, tabs': map<string, Tab>)
    requires forall t :: t in tabIds ==> (t in tabs <==> t in tabs')
    ensures Kept(tabIds, tabs) == Kept(tabIds, tabs')
    decreases |tabIds|
  {
    if tabIds != [] { KeptDepends(tabIds[..|tabIds| - 1], tabs, tabs'); }
  }

  /** The stored tabs stay, and every tab on top of them is the fresh chat of a pane. */
  ghost predicate OnTop(panes: seq<Pane>, tabs: map<string, Tab>, newId: string -> string, after: map<string, Tab>) {
    && (forall t :: t in tabs ==> t in after)
    && (forall t :: t in after ==>
          (t in tabs && after[t] == tabs[t]) ||
          (IsFreshChat(after[t], t) && exists i: nat :: i < |panes| && newId(panes[i].id) == t))
  }

  lemma {:induction false} FreshTabsComeOnTop(panes: seq<Pane>, tabs: map<string, Tab>, newId: string -> string)
    ensures OnTop(panes, tabs, newId, TabsAfter(panes, tabs, newId))
    decreases |panes|
  {
    if panes != [] {
      var init, p := panes[..|panes| - 1], panes[|panes| - 1];
      FreshTabsComeOnTop(init, tabs, newId);
      var before, after := TabsAfter(init, tabs, newId), TabsAfter(panes, tabs, newId);
      forall t | t in after
        ensures (t in tabs && after[t] == tabs[t]) ||
                (IsFreshChat(after[t], t) && exists i: nat :: i < |panes| && newId(panes[i].id) == t)
      {
        if t == newId(p.id) && Kept(p.tabIds, before) == [] {
          assert newId(panes[|panes| - 1].id) == t;
        } else if i: nat :| i < |init| && newId(init[i].id) == t {
          assert newId(panes[i].id) == t;
        }
      }
    }
  }

  lemma {:induction false} PanesAreRestored(panes: seq<Pane>, tabs: map<string, Tab>, newId: string -> string, i: nat)
    requires NewIds(panes, newId) && i < |panes|
    ensures IsRestored(panes[i], tabs, newId(panes[i].id), PanesAfter(panes, tabs, newId)[i])
    decreases |panes|
  {
    var init, p := panes[..|panes| - 1], panes[|panes| - 1];
    if i < |init| {
      PanesAreRestored(init, tabs, newId, i);
    } else {
      var before := TabsAfter(init, tabs, newId);
      FreshTabsComeOnTop(init, tabs, newId);
      forall t | t in p.tabIds ensures t in tabs <==> t in before {
        assert forall j: nat :: j < |panes| ==> newId(panes[j].id) !in p.tabIds;
        assert forall j: nat :: j < |init| ==> init[j] == panes[j];
      }
      KeptDepends(p.tabIds, tabs, before);
    }
  }

  /** A stored workspace is loaded pane by pane with its known tabs in order; the focus stays unless its
      pane is gone, and then the first pane has it. Anything else starts the default workspace. */
  lemma LoadingRestores(stored: State, newId: string -> string)
    requires |stored.panes| > 0 && NewIds(stored.panes, newId)
    ensures var s := Loaded(Some(stored), newId);
            && |s.panes| == |stored.panes| && s.layoutKind == stored.layoutKind && s.splitRatios == stored.splitRatios
            && (forall i: nat :: i < |s.panes| ==>
                  IsRestored(stored.panes[i], stored.tabs, newId(stored.panes[i].id), s.panes[i]))
            && OnTop(stored.panes, stored.tabs, newId, s.tabs)
            && s.focusedPaneId ==
                 if exists i: nat :: i < |stored.panes| && stored.panes[i].id == stored.focusedPaneId
                 then stored.focusedPaneId else stored.panes[0].id
  {
    var panes := PanesAfter(stored.panes, stored.tabs, newId);
    forall i: nat | i < |panes|
      ensures IsRestored(stored.panes[i], stored.tabs, newId(stored.panes[i].id), panes[i])
    {
      PanesAreRestored(stored.panes, stored.tabs, newId, i);
    }
    FreshTabsComeOnTop(stored.panes, stored.tabs, newId);
    PaneIndexDepends(stored.panes, panes, stored.focusedPaneId);
    var k := PaneIndex(stored.panes, stored.focusedPaneId);
    if k < |panes| { assert stored.panes[k].id == stored.focusedPaneId; }
  }

  lemma NothingStoredIsTheDefault(parsed: Option<State>, newId: string -> string)
    requires parsed.Some? ==> parsed.value.panes == []
    ensures var s := Loaded(parsed, newId);
            && s.layoutKind == Single && s.panes == [Pane("pane-1", ["tab-default"], Some("tab-default"))]
            && s.focusedPaneId == "pane-1" && s.splitRatios == [0.5, 0.5]
            && s.tabs.Keys == {"tab-default"} && IsFreshChat(s.tabs["tab-default"], "tab-default")
  {
  }
}
