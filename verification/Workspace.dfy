/** Panes and tabs of the workspace (src/stores/workspace-store.ts, src/types/workspace.ts). */
module Workspace {
  import opened Common

  datatype Kind = Chat | App | Project | Projects | Media | Automations | Settings

  datatype LayoutKind = Single | SplitVertical | SplitHorizontal | SplitThree | SplitGrid

  datatype Tab = Tab(
    id: string, kind: Kind, title: string, conversationId: Option<string>, toolId: Option<string>,
    projectId: Option<string>, view: Option<Value>, closable: Option<bool>)

  /** What the caller of `openTab` gives; the id is optional. */
  datatype TabData = TabData(
    id: Option<string>, kind: Kind, title: string, conversationId: Option<string>, toolId: Option<string>,
    projectId: Option<string>, view: Option<Value>, closable: Option<bool>)

  datatype Pane = Pane(id: string, tabIds: seq<string>, activeTabId: Option<string>)

  datatype State = State(
    layoutKind: LayoutKind, panes: seq<Pane>, focusedPaneId: string, tabs: map<string, Tab>, splitRatios: seq<real>)

  const MAX_TABS_PER_PANE: nat := 20

  predicate Truthy(s: Option<string>) { s.Some? && s.value != "" }

  function DefaultTab(id: string): Tab { Tab(id, Chat, "New chat", None, None, None, None, Some(false)) }

  function DefaultState(): State {
    State(Single, [Pane("pane-1", ["tab-default"], Some("tab-default"))], "pane-1",
          map["tab-default" := DefaultTab("tab-default")], [0.5, 0.5])
  }

  // ------------------------------------------------------------ helpers on lists

  function PaneIndex(panes: seq<Pane>, id: string): (k: nat)
    ensures k <= |panes| && (k < |panes| ==> panes[k].id == id)
    ensures forall i: nat :: i < k ==> panes[i].id != id
  {
    if panes == [] then 0
    else if panes[0].id == id then 0
    else
      var k := PaneIndex(panes[1..], id);
      assert forall i: nat :: 0 < i < k + 1 ==> panes[i] == panes[1..][i - 1];
      1 + k
  }

  function IndexOf(xs: seq<string>, x: string): (k: nat)
    ensures k <= |xs| && (k < |xs| ==> xs[k] == x) && (k == |xs| <==> x !in xs)
  {
    if xs == [] then 0 else if xs[0] == x then 0 else 1 + IndexOf(xs[1..], x)
  }

  function Without(xs: seq<string>, x: string): seq<string> {
    if xs == [] then []
    else Without(xs[..|xs| - 1], x) + (if xs[|xs| - 1] == x then [] else [xs[|xs| - 1]])
  }

  function HasPane(s: State, id: string): bool { PaneIndex(s.panes, id) < |s.panes| }

  // ------------------------------------------------------------ the operations

  /** Adds a pane holding one empty chat, unless the pane exists. */
  function WithPane(s: State, paneId: string, tabId: string): State {
    if HasPane(s, paneId) then s
    else s.(panes := s.panes + [Pane(paneId, [tabId], Some(tabId))], tabs := s.tabs[tabId := DefaultTab(tabId)])
  }

  function PaneName(i: nat): string
    requires 1 <= i <= 4
  {
    "pane-" + [['1', '2', '3', '4'][i - 1]]
  }

  function RequiredPanes(kind: LayoutKind): (n: nat)
    ensures 1 <= n <= 4
  {
    match kind
    case Single => 1
    case SplitVertical => 2
    case SplitHorizontal => 2
    case SplitThree => 3
    case SplitGrid => 4
  }

  function WithPanes(s: State, count: nat, newTab: nat -> string): State
    requires count <= 4
  {
    if count == 0 then s else WithPane(WithPanes(s, count - 1, newTab), PaneName(count), newTab(count))
  }

  function LaidOut(s: State, kind: LayoutKind, newTab: nat -> string): State {
    WithPanes(s, RequiredPanes(kind), newTab).(layoutKind := kind)
  }

  function Focused(s: State, paneId: string): State { s.(focusedPaneId := paneId) }

  function TargetPane(s: State, target: Option<string>): string {
    if Truthy(target) then target.value
    else if s.focusedPaneId != "" then s.focusedPaneId
    else if s.panes != [] && s.panes[0].id != "" then s.panes[0].id
    else "pane-1"
  }

  predicate NamesResource(d: TabData) { Truthy(d.conversationId) || Truthy(d.toolId) || Truthy(d.projectId) }

  predicate Matches(s: State, tid: string, d: TabData) {
    && tid in s.tabs && s.tabs[tid].kind == d.kind && s.tabs[tid].conversationId == d.conversationId
    && s.tabs[tid].toolId == d.toolId && s.tabs[tid].projectId == d.projectId
  }

  /** Position of the first tab showing the same resource. */
  function MatchIndex(s: State, tabIds: seq<string>, d: TabData): (k: nat)
    ensures k <= |tabIds| && (k < |tabIds| ==> Matches(s, tabIds[k], d))
  {
    if tabIds == [] then 0 else if Matches(s, tabIds[0], d) then 0 else 1 + MatchIndex(s, tabIds[1..], d)
  }

  predicate Prunable(s: State, pane: Pane, tid: string) {
    Some(tid) != pane.activeTabId && (tid in s.tabs ==> s.tabs[tid].closable != Some(false))
  }

  function PrunableIndex(s: State, pane: Pane, tabIds: seq<string>, id: string): (k: nat)
    ensures k <= |tabIds| && (k < |tabIds| ==> tabIds[k] != id && Prunable(s, pane, tabIds[k]))
    ensures k == |tabIds| ==> forall t :: t in tabIds && t != id ==> !Prunable(s, pane, t)
  {
    if tabIds == [] then 0
    else if tabIds[0] != id && Prunable(s, pane, tabIds[0]) then 0
    else 1 + PrunableIndex(s, pane, tabIds[1..], id)
  }

  function NewTab(id: string, d: TabData): Tab {
    Tab(id, d.kind, d.title, d.conversationId, d.toolId, d.projectId, d.view, Some(d.closable != Some(false)))
  }

  /** The pane's only tab is an empty chat and the new one shows something. */
  predicate Replaces(s: State, pane: Pane, d: TabData) {
    && |pane.tabIds| == 1 && pane.tabIds[0] in s.tabs && s.tabs[pane.tabIds[0]].kind == Chat
    && !Truthy(s.tabs[pane.tabIds[0]].conversationId) && NamesResource(d)
  }

  function OpenIn(s: State, i: nat, id: string, d: TabData): State
    requires i < |s.panes|
  {
    var pane, added := s.panes[i], s.tabs[id := NewTab(id, d)];
    if Replaces(s, pane, d) then
      s.(tabs := added - {s.tabs[pane.tabIds[0]].id}, panes := s.panes[i := Pane(pane.id, [id], Some(id))])
    else
      var grown := pane.tabIds + [id];
      var k := PrunableIndex(s, pane, grown, id);
      if |grown| > MAX_TABS_PER_PANE && k < |grown| then
        s.(tabs := added - {grown[k]}, panes := s.panes[i := Pane(pane.id, Without(grown, grown[k]), Some(id))])
      else
        s.(tabs := added, panes := s.panes[i := Pane(pane.id, grown, Some(id))])
  }

  function Open(s: State, paneId: string, id: string, d: TabData): State {
    var i := PaneIndex(s.panes, paneId);
    var next :=
      if i < |s.panes| then OpenIn(s, i, id, d)
      else s.(tabs := s.tabs[id := NewTab(id, d)], panes := s.panes + [Pane(paneId, [id], Some(id))]);
    next.(focusedPaneId := paneId)
  }

  function Activate(s: State, tabId: string, paneId: string): State {
    var i := PaneIndex(s.panes, paneId);
    if i == |s.panes| || s.panes[i].activeTabId == Some(tabId) then s
    else s.(panes := s.panes[i := s.panes[i].(activeTabId := Some(tabId))], focusedPaneId := paneId)
  }

  /** The position in the pane of a tab that already shows what is to be opened. */
  function AlreadyOpen(s: State, paneId: string, d: TabData): Option<string> {
    var i := PaneIndex(s.panes, paneId);
    if i == |s.panes| || !NamesResource(d) then None
    else
      var k := MatchIndex(s, s.panes[i].tabIds, d);
      if k < |s.panes[i].tabIds| then Some(s.panes[i].tabIds[k]) else None
  }

  function IdFor(d: TabData, newId: string): string { if Truthy(d.id) then d.id.value else newId }

  function OpenedTab(s: State, d: TabData, target: Option<string>, newId: string): (State, string) {
    var paneId := TargetPane(s, target);
    match AlreadyOpen(s, paneId, d)
    case Some(tid) => (Activate(s, tid, paneId), tid)
    case None => (Open(s, paneId, IdFor(d, newId), d), IdFor(d, newId))
  }

  function ActivatedTab(s: State, tabId: string, target: Option<string>): State {
    Activate(s, tabId, if Truthy(target) then target.value else s.focusedPaneId)
  }

  /** The tab that takes over when `tabId`, at position `k`, is closed. */
  function NextActive(pane: Pane, tabId: string, k: nat, rest: seq<string>): Option<string> {
    if pane.activeTabId != Some(tabId) || rest == [] then pane.activeTabId
    else Some(rest[if k < |rest| then k else |rest| - 1])
  }

  function ClosedTab(s: State, tabId: string, target: Option<string>, newId: string): State {
    var i := PaneIndex(s.panes, if Truthy(target) then target.value else s.focusedPaneId);
    if i == |s.panes| || tabId !in s.panes[i].tabIds then s else ClosedIn(s, i, tabId, newId)
  }

  function ClosedIn(s: State, i: nat, tabId: string, newId: string): State
    requires i < |s.panes|
  {
    var pane := s.panes[i];
    var rest := Without(pane.tabIds, tabId);
    if pane.activeTabId == Some(tabId) && rest == [] then
      s.(tabs := (s.tabs - {tabId})[newId := DefaultTab(newId)],
         panes := s.panes[i := Pane(pane.id, [newId], Some(newId))])
    else
      s.(tabs := s.tabs - {tabId},
         panes := s.panes[i := Pane(pane.id, rest, NextActive(pane, tabId, IndexOf(pane.tabIds, tabId), rest))])
  }

  /** The list with the element at `from` taken out and put back at `to`. */
  function Shifted(xs: seq<string>, from: int, to: int): seq<string>
    requires 0 <= from < |xs| && 0 <= to < |xs|
  {
    var taken := xs[..from] + xs[from + 1..];
    taken[..to] + [xs[from]] + taken[to..]
  }

  function Reordered(s: State, paneId: string, from: int, to: int): State {
    var i := PaneIndex(s.panes, paneId);
    if i == |s.panes| || !(0 <= from < |s.panes[i].tabIds| && 0 <= to < |s.panes[i].tabIds|) || from == to then s
    else s.(panes := s.panes[i := s.panes[i].(tabIds := Shifted(s.panes[i].tabIds, from, to))])
  }

  datatype Resources = Resources(conversationIds: set<string>, toolIds: set<string>, projectIds: set<string>)

  /** A tab whose resource is gone, turned into an empty one of its kind. */
  function Reconciled(t: Tab, r: Resources): Tab {
    if t.kind == Chat && Truthy(t.conversationId) then
      if t.conversationId.value in r.conversationIds then t else t.(title := "New chat", conversationId := None)
    else if t.kind == App && Truthy(t.toolId) then
      if t.toolId.value in r.toolIds then t else t.(title := "App unavailable", toolId := None)
    else if t.kind == Project && Truthy(t.projectId) then
      if t.projectId.value in r.projectIds then t else t.(title := "Project unavailable", projectId := None)
    else t
  }

  function Reconcile(s: State, r: Resources): State { s.(tabs := map t | t in s.tabs :: Reconciled(s.tabs[t], r)) }

  // ------------------------------------------------------------ the store

  class Store {
    var layoutKind: LayoutKind
    var panes: seq<Pane>
    var focusedPaneId: string
    var tabs: map<string, Tab>
    var splitRatios: seq<real>

    function View(): State
      reads this
    {
      State(layoutKind, panes, focusedPaneId, tabs, splitRatios)
    }

    constructor (initial: State)
      ensures View() == initial
    {
      layoutKind, panes, focusedPaneId, tabs, splitRatios :=
        initial.layoutKind, initial.panes, initial.focusedPaneId, initial.tabs, initial.splitRatios;
    }

    method FindPane(id: string) returns (k: nat)
      ensures k == PaneIndex(panes, id)
    {
      k := 0;
      while k < |panes| && panes[k].id != id
        invariant k <= |panes| && PaneIndex(panes, id) == k + PaneIndex(panes[k..], id)
      {
        assert panes[k..][1..] == panes[k + 1..];
        k := k + 1;
      }
    }

    method SetLayout(kind: LayoutKind, newTab: nat -> string)
      modifies this
      ensures View() == LaidOut(old(View()), kind, newTab)
    {
      var required := 1;
      if kind == SplitVertical || kind == SplitHorizontal {
        required := 2;
      } else if kind == SplitThree {
        required := 3;
      } else if kind == SplitGrid {
        required := 4;
      }
      var i := 1;
      while i <= required
        invariant 1 <= i <= required + 1 && View() == WithPanes(old(View()), i - 1, newTab)
      {
        var pane := EnsurePane(PaneName(i), newTab(i));
        i := i + 1;
      }
      layoutKind := kind;
    }

    method EnsurePane(paneId: string, newTab: string) returns (pane: Pane)
      modifies this`panes, this`tabs
      ensures View() == WithPane(old(View()), paneId, newTab)
      ensures pane in panes && pane.id == paneId
    {
      var k := FindPane(paneId);
      if k < |panes| { return panes[k]; }
      pane := Pane(paneId, [newTab], Some(newTab));
      panes := panes + [pane];
      tabs := tabs[newTab := DefaultTab(newTab)];
    }

    method SetFocusedPane(paneId: string)
      modifies this`focusedPaneId
      ensures View() == Focused(old(View()), paneId)
    {
      if focusedPaneId != paneId { focusedPaneId := paneId; }
    }

    method FindMatch(tabIds: seq<string>, d: TabData) returns (k: nat)
      ensures k == MatchIndex(View(), tabIds, d)
    {
      k := 0;
      while k < |tabIds| && !Matches(View(), tabIds[k], d)
        invariant k <= |tabIds| && MatchIndex(View(), tabIds, d) == k + MatchIndex(View(), tabIds[k..], d)
      {
        assert tabIds[k..][1..] == tabIds[k + 1..];
        k := k + 1;
      }
    }

    method FindPrunable(pane: Pane, tabIds: seq<string>, id: string) returns (k: nat)
      ensures k == PrunableIndex(View(), pane, tabIds, id)
    {
      k := 0;
      while k < |tabIds| && !(tabIds[k] != id && Prunable(View(), pane, tabIds[k]))
        invariant k <= |tabIds|
        invariant PrunableIndex(View(), pane, tabIds, id) == k + PrunableIndex(View(), pane, tabIds[k..], id)
      {
        assert tabIds[k..][1..] == tabIds[k + 1..];
        k := k + 1;
      }
    }

    method OpenTab(d: TabData, target: Option<string>, newId: string) returns (id: string)
      modifies this
      ensures (View(), id) == OpenedTab(old(View()), d, target, newId)
    {
      var paneId := TargetPane(View(), target);
      var p := FindPane(paneId);
      if p < |panes| && NamesResource(d) {
        var k := FindMatch(panes[p].tabIds, d);
        if k < |panes[p].tabIds| {
          id := panes[p].tabIds[k];
          ActivateTab(id, Some(paneId));
          return;
        }
      }
      id := IdFor(d, newId);
      if p < |panes| {
        AddTab(p, id, d);
      } else {
        tabs := tabs[id := NewTab(id, d)];
        panes := panes + [Pane(paneId, [id], Some(id))];
      }
      focusedPaneId := paneId;
    }

    /** Adds the new tab to an existing pane, in place of its empty chat or of a closable tab if it is full. */
    method AddTab(p: nat, id: string, d: TabData)
      requires p < |panes|
      modifies this`tabs, this`panes
      ensures View() == OpenIn(old(View()), p, id, d)
    {
      var pane, nextTabs := panes[p], tabs[id := NewTab(id, d)];
      var replace := Replaces(View(), pane, d);
      var nextTabIds := if replace then [id] else pane.tabIds + [id];
      if !replace && |nextTabIds| > MAX_TABS_PER_PANE {
        var k := FindPrunable(pane, nextTabIds, id);
        if k < |nextTabIds| {
          var pruned := nextTabIds[k];
          nextTabIds := Remove(nextTabIds, pruned);
          nextTabs := nextTabs - {pruned};
        }
      }
      if replace { nextTabs := nextTabs - {tabs[pane.tabIds[0]].id}; }
      panes := panes[p := Pane(pane.id, nextTabIds, Some(id))];
      tabs := nextTabs;
    }

    method Remove(xs: seq<string>, x: string) returns (rest: seq<string>)
      ensures rest == Without(xs, x)
    {
      rest := [];
      var i := 0;
      while i < |xs|
        invariant i <= |xs| && rest == Without(xs[..i], x)
      {
        assert xs[..i + 1][..i] == xs[..i];
        if xs[i] != x { rest := rest + [xs[i]]; }
        i := i + 1;
      }
      assert xs[..i] == xs;
    }

    method CloseTab(tabId: string, target: Option<string>, newId: string)
      modifies this`panes, this`tabs
      ensures View() == ClosedTab(old(View()), tabId, target, newId)
    {
      var p := FindPane(if Truthy(target) then target.value else focusedPaneId);
      if p == |panes| { return; }
      if tabId in panes[p].tabIds { CloseIn(p, tabId, newId); }
    }

    method CloseIn(p: nat, tabId: string, newId: string)
      requires p < |panes| && tabId in panes[p].tabIds
      modifies this`panes, this`tabs
      ensures View() == ClosedIn(old(View()), p, tabId, newId)
    {
      var pane := panes[p];
      var k := IndexOf(pane.tabIds, tabId);
      var nextTabIds := Remove(pane.tabIds, tabId);
      var nextTabs, nextActive := tabs - {tabId}, pane.activeTabId;
      if pane.activeTabId == Some(tabId) {
        if |nextTabIds| > 0 {
          nextActive := Some(nextTabIds[if k < |nextTabIds| - 1 then k else |nextTabIds| - 1]);
        } else {
          nextTabs := nextTabs[newId := DefaultTab(newId)];
          nextTabIds := [newId];
          nextActive := Some(newId);
        }
      }
      panes := panes[p := Pane(pane.id, nextTabIds, nextActive)];
      tabs := nextTabs;
    }

    method ActivateTab(tabId: string, target: Option<string>)
      modifies this`panes, this`focusedPaneId
      ensures View() == ActivatedTab(old(View()), tabId, target)
    {
      var paneId := if Truthy(target) then target.value else focusedPaneId;
      var p := FindPane(paneId);
      if p == |panes| || panes[p].activeTabId == Some(tabId) { return; }
      panes := panes[p := panes[p].(activeTabId := Some(tabId))];
      focusedPaneId := paneId;
    }

    method ReorderTabs(paneId: string, from: int, to: int)
      modifies this`panes
      ensures View() == Reordered(old(View()), paneId, from, to)
    {
      var p := FindPane(paneId);
      if p == |panes| { return; }
      var next := panes[p].tabIds;
      if from < 0 || from >= |next| || to < 0 || to >= |next| || from == to { return; }
      var moved := next[from];
      next := next[..from] + next[from + 1..];
      next := next[..to] + [moved] + next[to..];
      panes := panes[p := panes[p].(tabIds := next)];
    }

    method ReconcileWithAvailableResources(r: Resources)
      modifies this`tabs
      ensures View() == Reconcile(old(View()), r)
    {
      var next, todo, changed := tabs, tabs.Keys, false;
      while todo != {}
        invariant todo <= tabs.Keys == next.Keys
        invariant forall t :: t in tabs ==> next[t] == if t in todo then tabs[t] else Reconciled(tabs[t], r)
        invariant !changed ==> next == tabs
        decreases |todo|
      {
        var tid :| tid in todo;
        var tab := Reconciled(next[tid], r);
        if tab != next[tid] {
          next := next[tid := tab];
          changed := true;
        }
        todo := todo - {tid};
      }
      assert next == Reconcile(old(View()), r).tabs;
      if changed { tabs := next; }
    }
  }
}
