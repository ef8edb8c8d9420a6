/** Well-formedness of the workspace over whole sessions (src/stores/workspace-store.ts). */
module WorkspaceLaws {
  import opened Common
  import opened Workspace

  predicate Distinct(xs: seq<string>) { forall i, j :: 0 <= i < j < |xs| ==> xs[i] != xs[j] }

  /** A pane shows at least one tab, none twice, and its active tab is one of them. */
  predicate PaneOk(p: Pane) {
    && p.tabIds != [] && Distinct(p.tabIds)
    && p.activeTabId.Some? && p.activeTabId.value in p.tabIds
  }

  predicate AllOk(panes: seq<Pane>) { forall i: nat :: i < |panes| ==> PaneOk(panes[i]) }

  predicate Apart(panes: seq<Pane>) {
    forall i, j :: 0 <= i < j < |panes| ==>
      panes[i].id != panes[j].id && forall t :: t in panes[i].tabIds ==> t !in panes[j].tabIds
  }

  predicate Listed(panes: seq<Pane>, tabId: string) { exists i: nat :: i < |panes| && tabId in panes[i].tabIds }

  /** The tab map holds exactly the tabs of the panes, each under its own id. */
  ghost predicate TabsMatch(panes: seq<Pane>, tabs: map<string, Tab>) {
    && (forall t :: t in tabs <==> Listed(panes, t))
    && (forall t :: t in tabs ==> tabs[t].id == t)
  }

  ghost predicate WellFormed(s: State) {
    && AllOk(s.panes) && Apart(s.panes) && TabsMatch(s.panes, s.tabs)
    && HasPane(s, s.focusedPaneId)
  }

  // ------------------------------------------------------------ two ways to change a workspace

  lemma {:induction false} PaneIndexDepends(a: seq<Pane>, b: seq<Pane>, id: string)
    requires |a| == |b| && forall i: nat :: i < |a| ==> a[i].id == b[i].id
    ensures PaneIndex(a, id) == PaneIndex(b, id)
    decreases |a|
  {
    if a != [] { PaneIndexDepends(a[1..], b[1..], id); }
  }

  lemma {:induction false} PaneIndexAppend(panes: seq<Pane>, p: Pane, id: string)
    ensures PaneIndex(panes + [p], id) ==
              if PaneIndex(panes, id) < |panes| || p.id == id then PaneIndex(panes, id) else |panes| + 1
    decreases |panes|
  {
    if panes != [] {
      assert (panes + [p])[1..] == panes[1..] + [p];
      PaneIndexAppend(panes[1..], p, id);
    }
  }

  lemma ListedAt(panes: seq<Pane>, i: nat)
    requires i < |panes|
    ensures forall t :: t in panes[i].tabIds ==> Listed(panes, t)
  {
  }

  /** `p` may stand at place `i`: it is a proper pane whose tabs were there or are new. */
  ghost predicate Fits(s: State, i: nat, p: Pane) {
    && i < |s.panes| && PaneOk(p) && p.id == s.panes[i].id
    && forall t :: t in p.tabIds ==> t in s.panes[i].tabIds || t !in s.tabs
  }

  /** The tabs after `p` took place `i`. */
  ghost predicate TabsFor(s: State, i: nat, p: Pane, tabs: map<string, Tab>)
    requires i < |s.panes|
  {
    && (forall t :: t in tabs <==> t in p.tabIds || (t in s.tabs && t !in s.panes[i].tabIds))
    && (forall t :: t in tabs ==> tabs[t].id == t)
  }

  lemma ReplacedApart(s: State, i: nat, p: Pane)
    requires WellFormed(s) && Fits(s, i, p)
    ensures Apart(s.panes[i := p])
  {
    forall j: nat | j < |s.panes| && j != i
      ensures s.panes[j].id != p.id && forall t :: t in p.tabIds ==> t !in s.panes[j].tabIds
    {
      ListedAt(s.panes, j);
      assert s.panes[j].id != s.panes[i].id;
    }
  }

  lemma ReplacedListed(s: State, i: nat, p: Pane, t: string)
    requires WellFormed(s) && i < |s.panes|
    ensures Listed(s.panes[i := p], t) <==> t in p.tabIds || (t in s.tabs && t !in s.panes[i].tabIds)
  {
    var next := s.panes[i := p];
    if t in p.tabIds { assert t in next[i].tabIds; }
    if j: nat :| j < |next| && t in next[j].tabIds && j != i { assert t in s.panes[j].tabIds; }
    if t in s.tabs && t !in s.panes[i].tabIds {
      var j: nat :| j < |s.panes| && t in s.panes[j].tabIds;
      assert t in next[j].tabIds;
    }
  }

  lemma ReplacedTabs(s: State, i: nat, p: Pane, tabs: map<string, Tab>)
    requires WellFormed(s) && Fits(s, i, p) && TabsFor(s, i, p, tabs)
    ensures TabsMatch(s.panes[i := p], tabs)
  {
    forall t ensures t in tabs <==> Listed(s.panes[i := p], t) { ReplacedListed(s, i, p, t); }
  }

  lemma ReplacedOk(panes: seq<Pane>, i: nat, p: Pane)
    requires AllOk(panes) && i < |panes| && PaneOk(p)
    ensures AllOk(panes[i := p])
  {
  }

  /** One pane gets new tabs that it had or that are new. */
  lemma ReplacePane(s: State, i: nat, p: Pane, tabs: map<string, Tab>)
    requires WellFormed(s) && Fits(s, i, p) && TabsFor(s, i, p, tabs)
    ensures WellFormed(s.(panes := s.panes[i := p], tabs := tabs))
  {
    ReplacedOk(s.panes, i, p);
    ReplacedApart(s, i, p);
    ReplacedTabs(s, i, p, tabs);
    PaneIndexDepends(s.panes, s.panes[i := p], s.focusedPaneId);
  }

  lemma AddedListed(panes: seq<Pane>, p: Pane, t: string)
    ensures Listed(panes + [p], t) <==> Listed(panes, t) || t in p.tabIds
  {
    var next := panes + [p];
    if j: nat :| j < |panes| && t in panes[j].tabIds { assert t in next[j].tabIds; }
    if t in p.tabIds { assert t in next[|panes|].tabIds; }
  }

  lemma AddedApart(s: State, p: Pane)
    requires WellFormed(s) && !HasPane(s, p.id) && forall t :: t in p.tabIds ==> t !in s.tabs
    ensures Apart(s.panes + [p])
  {
    forall j: nat | j < |s.panes| ensures s.panes[j].id != p.id && forall t :: t in s.panes[j].tabIds ==> t !in p.tabIds {
      ListedAt(s.panes, j);
    }
  }

  lemma AddedTabs(s: State, p: Pane, tab: Tab)
    requires TabsMatch(s.panes, s.tabs) && p.tabIds == [tab.id] && tab.id !in s.tabs
    ensures TabsMatch(s.panes + [p], s.tabs[tab.id := tab])
  {
    forall t ensures t in s.tabs[tab.id := tab] <==> Listed(s.panes + [p], t) { AddedListed(s.panes, p, t); }
  }

  /** A new pane with one new tab. */
  lemma AddPane(s: State, id: string, tab: Tab)
    requires WellFormed(s) && !HasPane(s, id) && tab.id !in s.tabs
    ensures var next := s.(panes := s.panes + [Pane(id, [tab.id], Some(tab.id))], tabs := s.tabs[tab.id := tab]);
            WellFormed(next) && HasPane(next, id)
  {
    var p := Pane(id, [tab.id], Some(tab.id));
    assert AllOk(s.panes + [p]);
    AddedApart(s, p);
    AddedTabs(s, p, tab);
    PaneIndexAppend(s.panes, p, s.focusedPaneId);
    PaneIndexAppend(s.panes, p, id);
  }

  lemma {:induction false} WithoutIs(xs: seq<string>, x: string)
    requires Distinct(xs)
    ensures Distinct(Without(xs, x))
    ensures forall t :: t in Without(xs, x) <==> t in xs && t != x
    ensures |Without(xs, x)| == if x in xs then |xs| - 1 else |xs|
    decreases |xs|
  {
    if xs != [] {
      var init, last := xs[..|xs| - 1], xs[|xs| - 1];
      WithoutIs(init, x);
      assert forall t :: t in xs <==> t in init || t == last;
      assert last !in init;
    }
  }

  lemma TakenOut(xs: seq<string>, from: int)
    requires 0 <= from < |xs| && Distinct(xs)
    ensures var taken := xs[..from] + xs[from + 1..];
            Distinct(taken) && (forall t :: t in taken <==> t in xs && t != xs[from])
  {
    var taken := xs[..from] + xs[from + 1..];
    assert forall k: nat :: k < |taken| ==> taken[k] == xs[if k < from then k else k + 1];
    assert forall k: nat :: k < |xs| && k != from ==> xs[k] == taken[if k < from then k else k - 1];
  }

  lemma PutBack(xs: seq<string>, to: int, x: string)
    requires 0 <= to <= |xs| && Distinct(xs) && x !in xs
    ensures var put := xs[..to] + [x] + xs[to..];
            Distinct(put) && put[to] == x && (forall t :: t in put <==> t in xs || t == x)
  {
    var put := xs[..to] + [x] + xs[to..];
    forall k: nat | k < |put| ensures put[k] == if k == to then x else xs[if k < to then k else k - 1] {
    }
    forall t ensures t in put <==> t in xs || t == x {
      if t in xs {
        var k :| 0 <= k < |xs| && xs[k] == t;
        assert put[if k < to then k else k + 1] == t;
      }
    }
  }

  lemma ShiftedIs(xs: seq<string>, from: int, to: int)
    requires 0 <= from < |xs| && 0 <= to < |xs| && Distinct(xs)
    ensures Distinct(Shifted(xs, from, to)) && Shifted(xs, from, to)[to] == xs[from]
    ensures forall t :: t in Shifted(xs, from, to) <==> t in xs
  {
    TakenOut(xs, from);
    PutBack(xs[..from] + xs[from + 1..], to, xs[from]);
  }

  // ------------------------------------------------------------ every operation keeps it

  lemma WithPaneKeeps(s: State, paneId: string, tabId: string)
    requires WellFormed(s) && (HasPane(s, paneId) || tabId !in s.tabs)
    ensures WellFormed(WithPane(s, paneId, tabId)) && HasPane(WithPane(s, paneId, tabId), paneId)
    ensures WithPane(s, paneId, tabId).tabs.Keys <= s.tabs.Keys + {tabId}
  {
    if !HasPane(s, paneId) { AddPane(s, paneId, DefaultTab(tabId)); }
  }

  ghost predicate FreshTabs(s: State, newTab: nat -> string, count: nat) {
    && (forall i: nat :: 1 <= i <= count ==> newTab(i) !in s.tabs)
    && (forall i: nat, j: nat :: 1 <= i < j <= count ==> newTab(i) != newTab(j))
  }

  lemma {:induction false} WithPanesKeeps(s: State, count: nat, newTab: nat -> string, fresh': nat)
    requires WellFormed(s) && count <= 4 && count <= fresh' && FreshTabs(s, newTab, fresh')
    ensures WellFormed(WithPanes(s, count, newTab))
    ensures forall i: nat :: count < i <= fresh' ==> newTab(i) !in WithPanes(s, count, newTab).tabs
    decreases count
  {
    if count > 0 {
      WithPanesKeeps(s, count - 1, newTab, fresh');
      var before := WithPanes(s, count - 1, newTab);
      WithPaneKeeps(before, PaneName(count), newTab(count));
      assert WithPanes(s, count, newTab).tabs.Keys <= before.tabs.Keys + {newTab(count)};
      forall i: nat | count < i <= fresh' ensures newTab(i) !in WithPanes(s, count, newTab).tabs {
        assert newTab(i) !in before.tabs && newTab(i) != newTab(count);
      }
    }
  }

  lemma LayoutKeeps(s: State, kind: LayoutKind, newTab: nat -> string)
    requires WellFormed(s) && FreshTabs(s, newTab, RequiredPanes(kind))
    ensures WellFormed(LaidOut(s, kind, newTab))
  {
    WithPanesKeeps(s, RequiredPanes(kind), newTab, RequiredPanes(kind));
    assert HasPane(LaidOut(s, kind, newTab), LaidOut(s, kind, newTab).focusedPaneId);
  }

  /** Focusing keeps a workspace well-formed exactly when the pane exists. */
  lemma FocusKeeps(s: State, paneId: string)
    requires WellFormed(s)
    ensures WellFormed(Focused(s, paneId)) <==> HasPane(s, paneId)
  {
  }

  lemma FocusOn(s: State, i: nat)
    requires WellFormed(s) && i < |s.panes|
    ensures WellFormed(s.(focusedPaneId := s.panes[i].id))
  {
    assert PaneIndex(s.panes, s.panes[i].id) <= i;
  }

  lemma ActivateIn(s: State, i: nat, tabId: string)
    requires WellFormed(s) && i < |s.panes|
    ensures var p := s.panes[i].(activeTabId := Some(tabId));
            WellFormed(s.(panes := s.panes[i := p], focusedPaneId := p.id)) <==> tabId in s.panes[i].tabIds
  {
    var p := s.panes[i].(activeTabId := Some(tabId));
    var next := s.(panes := s.panes[i := p]);
    if tabId in p.tabIds {
      ListedAt(s.panes, i);
      ReplacePane(s, i, p, s.tabs);
      FocusOn(next, i);
    } else {
      assert !PaneOk(next.panes[i]);
    }
  }

  /** Activating keeps it exactly when the pane is missing or holds the tab. */
  lemma ActivateKeeps(s: State, tabId: string, target: Option<string>)
    requires WellFormed(s)
    ensures var i := PaneIndex(s.panes, if Truthy(target) then target.value else s.focusedPaneId);
            WellFormed(ActivatedTab(s, tabId, target)) <==> i == |s.panes| || tabId in s.panes[i].tabIds
  {
    var i := PaneIndex(s.panes, if Truthy(target) then target.value else s.focusedPaneId);
    if i < |s.panes| && s.panes[i].activeTabId != Some(tabId) { ActivateIn(s, i, tabId); }
  }

  lemma ReorderKeeps(s: State, paneId: string, from: int, to: int)
    requires WellFormed(s)
    ensures WellFormed(Reordered(s, paneId, from, to))
  {
    var i := PaneIndex(s.panes, paneId);
    if i < |s.panes| && 0 <= from < |s.panes[i].tabIds| && 0 <= to < |s.panes[i].tabIds| {
      ShiftedIs(s.panes[i].tabIds, from, to);
      ListedAt(s.panes, i);
      ReplacePane(s, i, s.panes[i].(tabIds := Shifted(s.panes[i].tabIds, from, to)), s.tabs);
    }
  }

  lemma CloseLast(s: State, i: nat, tabId: string, newId: string)
    requires WellFormed(s) && i < |s.panes| && newId !in s.tabs
    requires tabId in s.panes[i].tabIds && Without(s.panes[i].tabIds, tabId) == []
    ensures s.panes[i].activeTabId == Some(tabId)
    ensures WellFormed(s.(tabs := (s.tabs - {tabId})[newId := DefaultTab(newId)],
                          panes := s.panes[i := Pane(s.panes[i].id, [newId], Some(newId))]))
  {
    var pane := s.panes[i];
    WithoutIs(pane.tabIds, tabId);
    assert forall t :: t in pane.tabIds ==> t in Without(pane.tabIds, tabId) || t == tabId;
    var p, tabs := Pane(pane.id, [newId], Some(newId)), (s.tabs - {tabId})[newId := DefaultTab(newId)];
    assert Fits(s, i, p) && TabsFor(s, i, p, tabs);
    ReplacePane(s, i, p, tabs);
  }

  lemma CloseOne(s: State, i: nat, tabId: string)
    requires WellFormed(s) && i < |s.panes| && tabId in s.panes[i].tabIds && Without(s.panes[i].tabIds, tabId) != []
    ensures var pane := s.panes[i]; var rest := Without(pane.tabIds, tabId);
            WellFormed(s.(tabs := s.tabs - {tabId},
              panes := s.panes[i := Pane(pane.id, rest, NextActive(pane, tabId, IndexOf(pane.tabIds, tabId), rest))]))
  {
    var pane := s.panes[i];
    var rest := Without(pane.tabIds, tabId);
    WithoutIs(pane.tabIds, tabId);
    ListedAt(s.panes, i);
    ReplacePane(s, i, Pane(pane.id, rest, NextActive(pane, tabId, IndexOf(pane.tabIds, tabId), rest)), s.tabs - {tabId});
  }

  lemma CloseKeeps(s: State, tabId: string, target: Option<string>, newId: string)
    requires WellFormed(s) && newId !in s.tabs
    ensures WellFormed(ClosedTab(s, tabId, target, newId))
  {
    var i := PaneIndex(s.panes, if Truthy(target) then target.value else s.focusedPaneId);
    if i < |s.panes| && tabId in s.panes[i].tabIds {
      if Without(s.panes[i].tabIds, tabId) == [] {
        CloseLast(s, i, tabId, newId);
      } else {
        CloseOne(s, i, tabId);
      }
    }
  }

  lemma ReplaceKeeps(s: State, i: nat, id: string, d: TabData)
    requires WellFormed(s) && i < |s.panes| && id !in s.tabs && Replaces(s, s.panes[i], d)
    ensures WellFormed(OpenIn(s, i, id, d))
  {
    var pane := s.panes[i];
    var only := pane.tabIds[0];
    assert forall t :: t in pane.tabIds <==> t == only;
    assert s.tabs[only].id == only;
    ReplacePane(s, i, Pane(pane.id, [id], Some(id)), s.tabs[id := NewTab(id, d)] - {only});
  }

  lemma Grown(s: State, i: nat, tab: Tab)
    requires WellFormed(s) && i < |s.panes| && tab.id !in s.tabs
    ensures var grown := s.panes[i].tabIds + [tab.id];
            Distinct(grown) &&
            WellFormed(s.(tabs := s.tabs[tab.id := tab], panes := s.panes[i := Pane(s.panes[i].id, grown, Some(tab.id))]))
  {
    var pane := s.panes[i];
    ListedAt(s.panes, i);
    assert Distinct(pane.tabIds + [tab.id]);
    assert tab.id in pane.tabIds + [tab.id];
    ReplacePane(s, i, Pane(pane.id, pane.tabIds + [tab.id], Some(tab.id)), s.tabs[tab.id := tab]);
  }

  /** Pruning a tab of a grown pane is closing it there. */
  lemma Pruned(s: State, full: State, i: nat, id: string, tabId: string)
    requires WellFormed(full) && i < |s.panes| == |full.panes| && full.panes == s.panes[i := full.panes[i]]
    requires full.panes[i].activeTabId == Some(id)
    requires tabId in full.panes[i].tabIds && id in full.panes[i].tabIds && tabId != id
    ensures WellFormed(full.(tabs := full.tabs - {tabId},
              panes := s.panes[i := Pane(full.panes[i].id, Without(full.panes[i].tabIds, tabId), Some(id))]))
  {
    var p := full.panes[i];
    WithoutIs(p.tabIds, tabId);
    assert id in Without(p.tabIds, tabId);
    CloseOne(full, i, tabId);
    assert full.panes[i := Pane(p.id, Without(p.tabIds, tabId), Some(id))]
        == s.panes[i := Pane(p.id, Without(p.tabIds, tabId), Some(id))];
  }

  lemma GrowKeeps(s: State, i: nat, id: string, d: TabData)
    requires WellFormed(s) && i < |s.panes| && id !in s.tabs && !Replaces(s, s.panes[i], d)
    ensures WellFormed(OpenIn(s, i, id, d))
  {
    var pane, tab := s.panes[i], NewTab(id, d);
    var grown := pane.tabIds + [id];
    var full := s.(tabs := s.tabs[id := tab], panes := s.panes[i := Pane(pane.id, grown, Some(id))]);
    Grown(s, i, tab);
    var k := PrunableIndex(s, pane, grown, id);
    if |grown| > MAX_TABS_PER_PANE && k < |grown| {
      assert grown[|pane.tabIds|] == id;
      Pruned(s, full, i, id, grown[k]);
      assert OpenIn(s, i, id, d) == full.(tabs := full.tabs - {grown[k]},
               panes := s.panes[i := Pane(pane.id, Without(grown, grown[k]), Some(id))]);
    } else {
      assert OpenIn(s, i, id, d) == full;
    }
  }

  lemma OpenKeeps(s: State, d: TabData, target: Option<string>, newId: string)
    requires WellFormed(s) && IdFor(d, newId) !in s.tabs
    ensures WellFormed(OpenedTab(s, d, target, newId).0)
  {
    var paneId, id := TargetPane(s, target), IdFor(d, newId);
    var i := PaneIndex(s.panes, paneId);
    if AlreadyOpen(s, paneId, d).Some? {
      ActivateIn(s, i, AlreadyOpen(s, paneId, d).value);
    } else if i < |s.panes| {
      if Replaces(s, s.panes[i], d) { ReplaceKeeps(s, i, id, d); } else { GrowKeeps(s, i, id, d); }
      FocusOn(OpenIn(s, i, id, d), i);
    } else {
      AddPane(s, paneId, NewTab(id, d));
    }
  }

  lemma SameTabs(panes: seq<Pane>, tabs: map<string, Tab>, tabs': map<string, Tab>)
    requires TabsMatch(panes, tabs)
    requires forall t :: t in tabs' <==> t in tabs
    requires forall t :: t in tabs ==> tabs'[t].id == tabs[t].id
    ensures TabsMatch(panes, tabs')
  {
  }

  lemma ReconcileKeeps(s: State, r: Resources)
    requires WellFormed(s)
    ensures WellFormed(Reconcile(s, r))
  {
    SameTabs(s.panes, s.tabs, Reconcile(s, r).tabs);
  }

  // ------------------------------------------------------------ whole sessions

  datatype Event =
    | SetLayout(kind: LayoutKind, newTab: nat -> string)
    | SetFocusedPane(paneId: string)
    | OpenTab(data: TabData, target: Option<string>, newId: string)
    | CloseTab(tabId: string, target: Option<string>, newId: string)
    | ActivateTab(tabId: string, target: Option<string>)
    | ReorderTabs(paneId: string, from: int, to: int)
    | EnsurePane(paneId: string, newId: string)
    | SetSplitRatios(ratios: seq<real>)
    | ReconcileResources(resources: Resources)

  function Step(s: State, e: Event): State {
    match e
    case SetLayout(kind, newTab) => LaidOut(s, kind, newTab)
    case SetFocusedPane(paneId) => Focused(s, paneId)
    case OpenTab(d, target, newId) => OpenedTab(s, d, target, newId).0
    case CloseTab(tabId, target, newId) => ClosedTab(s, tabId, target, newId)
    case ActivateTab(tabId, target) => ActivatedTab(s, tabId, target)
    case ReorderTabs(paneId, from, to) => Reordered(s, paneId, from, to)
    case EnsurePane(paneId, newId) => WithPane(s, paneId, newId)
    case SetSplitRatios(ratios) => s.(splitRatios := ratios)
    case ReconcileResources(r) => Reconcile(s, r)
  }

  /** New ids are fresh, a focused pane exists, and an activated tab is in its pane. */
  ghost predicate Proper(s: State, e: Event) {
    match e
    case SetLayout(kind, newTab) => FreshTabs(s, newTab, RequiredPanes(kind))
    case SetFocusedPane(paneId) => HasPane(s, paneId)
    case OpenTab(d, target, newId) => IdFor(d, newId) !in s.tabs
    case CloseTab(tabId, target, newId) => newId !in s.tabs
    case ActivateTab(tabId, target) =>
      var i := PaneIndex(s.panes, if Truthy(target) then target.value else s.focusedPaneId);
      i == |s.panes| || tabId in s.panes[i].tabIds
    case EnsurePane(paneId, newId) => newId !in s.tabs
    case _ => true
  }

  lemma StepKeeps(s: State, e: Event)
    requires WellFormed(s) && Proper(s, e)
    ensures WellFormed(Step(s, e))
  {
    match e
    case SetLayout(kind, newTab) => LayoutKeeps(s, kind, newTab);
    case SetFocusedPane(paneId) => FocusKeeps(s, paneId);
    case OpenTab(d, target, newId) => OpenKeeps(s, d, target, newId);
    case CloseTab(tabId, target, newId) => CloseKeeps(s, tabId, target, newId);
    case ActivateTab(tabId, target) => ActivateKeeps(s, tabId, target);
    case ReorderTabs(paneId, from, to) => ReorderKeeps(s, paneId, from, to);
    case EnsurePane(paneId, newId) => WithPaneKeeps(s, paneId, newId);
    case SetSplitRatios(ratios) => assert HasPane(Step(s, e), s.focusedPaneId);
    case ReconcileResources(r) => ReconcileKeeps(s, r);
  }

  ghost predicate Leads(s: State, events: seq<Event>, last: State)
    decreases |events|
  {
    if events == [] then last == s else Proper(s, events[0]) && Leads(Step(s, events[0]), events[1..], last)
  }

  lemma DefaultIsWellFormed()
    ensures WellFormed(DefaultState())
  {
    var s := DefaultState();
    assert s.panes[0].tabIds[0] == "tab-default";
    assert Listed(s.panes, "tab-default");
  }

  /** Every workspace reached from a well-formed one is well-formed. */
  lemma {:induction false} SessionsStayWellFormed(s: State, events: seq<Event>, last: State)
    requires WellFormed(s) && Leads(s, events, last)
    ensures WellFormed(last)
    decreases |events|
  {
    if events != [] {
      StepKeeps(s, events[0]);
      SessionsStayWellFormed(Step(s, events[0]), events[1..], last);
    }
  }

  // ------------------------------------------------------------ what opening a tab does

  predicate Shows(t: Tab, d: TabData) {
    t.kind == d.kind && t.conversationId == d.conversationId && t.toolId == d.toolId && t.projectId == d.projectId
  }

  lemma OpenInShowsTheTab(s: State, i: nat, id: string, d: TabData)
    requires WellFormed(s) && i < |s.panes| && id !in s.tabs
    ensures var next := OpenIn(s, i, id, d);
            && |next.panes| == |s.panes| && next.panes[i].id == s.panes[i].id && next.panes[i].activeTabId == Some(id)
            && id in next.tabs && next.tabs[id] == NewTab(id, d)
            && forall j: nat :: j < |s.panes| && j != i ==> next.panes[j] == s.panes[j]
  {
    ListedAt(s.panes, i);
    if Replaces(s, s.panes[i], d) { assert s.tabs[s.panes[i].tabIds[0]].id != id; }
  }

  /** The returned tab shows the resource and is active in the target pane; the other panes are as
      before. The pane gets the focus unless its active tab already showed the resource: then the
      focus stays where it was. */
  lemma OpenShowsTheTab(s: State, d: TabData, target: Option<string>, newId: string)
    requires WellFormed(s) && IdFor(d, newId) !in s.tabs
    ensures var (next, id), paneId := OpenedTab(s, d, target, newId), TargetPane(s, target);
            var i := PaneIndex(s.panes, paneId);
            && i < |next.panes| && next.panes[i].id == paneId && next.panes[i].activeTabId == Some(id)
            && id in next.tabs && Shows(next.tabs[id], d)
            && (forall j: nat :: j < |s.panes| && j != i ==> next.panes[j] == s.panes[j])
            && next.focusedPaneId ==
                 if i < |s.panes| && AlreadyOpen(s, paneId, d).Some? && s.panes[i].activeTabId == AlreadyOpen(s, paneId, d)
                 then s.focusedPaneId else paneId
  {
    var i := PaneIndex(s.panes, TargetPane(s, target));
    if i < |s.panes| && AlreadyOpen(s, TargetPane(s, target), d).None? { OpenInShowsTheTab(s, i, IdFor(d, newId), d); }
  }

  /** Opening a tab never grows a full pane while something in it may be pruned; it does grow it when
      every other tab is pinned or active. */
  lemma FullPaneOnlyGrowsWhenPinned(s: State, d: TabData, target: Option<string>, newId: string)
    requires WellFormed(s) && IdFor(d, newId) !in s.tabs
    requires HasPane(s, TargetPane(s, target)) && AlreadyOpen(s, TargetPane(s, target), d).None?
    ensures var i := PaneIndex(s.panes, TargetPane(s, target));
            var pane, now := s.panes[i], OpenedTab(s, d, target, newId).0.panes[i];
            |now.tabIds| ==
              if Replaces(s, pane, d) then 1
              else if |pane.tabIds| >= MAX_TABS_PER_PANE && exists t :: t in pane.tabIds && Prunable(s, pane, t)
              then |pane.tabIds| else |pane.tabIds| + 1
  {
    var i, id := PaneIndex(s.panes, TargetPane(s, target)), IdFor(d, newId);
    var pane := s.panes[i];
    var grown := pane.tabIds + [id];
    ListedAt(s.panes, i);
    assert Distinct(grown);
    var k := PrunableIndex(s, pane, grown, id);
    assert forall t :: t in pane.tabIds ==> t in grown && t != id;
    if k < |grown| {
      WithoutIs(grown, grown[k]);
      assert grown[k] in pane.tabIds;
    }
  }

  lemma CloseOneOfMany(s: State, i: nat, tabId: string, newId: string)
    requires i < |s.panes| && Distinct(s.panes[i].tabIds) && tabId in s.panes[i].tabIds && |s.panes[i].tabIds| > 1
    ensures var pane, next := s.panes[i], ClosedIn(s, i, tabId, newId);
            var k := IndexOf(pane.tabIds, tabId);
            && next.panes == s.panes[i := next.panes[i]] && next.tabs == s.tabs - {tabId}
            && next.panes[i].tabIds == pane.tabIds[..k] + pane.tabIds[k + 1..]
            && next.panes[i].activeTabId ==
                 if pane.activeTabId != Some(tabId) then pane.activeTabId
                 else Some(pane.tabIds[if k + 1 < |pane.tabIds| then k + 1 else k - 1])
  {
    WithoutSplits(s.panes[i].tabIds, IndexOf(s.panes[i].tabIds, tabId));
  }

  lemma CloseTheOnly(s: State, i: nat, tabId: string, newId: string)
    requires i < |s.panes| && s.panes[i].tabIds == [tabId] && s.panes[i].activeTabId == Some(tabId)
    ensures ClosedIn(s, i, tabId, newId)
         == s.(tabs := (s.tabs - {tabId})[newId := DefaultTab(newId)],
               panes := s.panes[i := Pane(s.panes[i].id, [newId], Some(newId))])
  {
    WithoutSplits([tabId], 0);
  }

  /** Closing takes away exactly the tab. If it was active, the tab that moved into its place takes over,
      or the last one, or a new chat if it was the only one. A tab that is not there changes nothing. */
  lemma CloseTakesTheTab(s: State, tabId: string, target: Option<string>, newId: string)
    requires WellFormed(s) && newId !in s.tabs
    requires HasPane(s, if Truthy(target) then target.value else s.focusedPaneId)
    ensures var i := PaneIndex(s.panes, if Truthy(target) then target.value else s.focusedPaneId);
            var pane, next := s.panes[i], ClosedTab(s, tabId, target, newId);
            && (tabId !in pane.tabIds ==> next == s)
            && (pane.tabIds == [tabId] ==>
                  next == s.(tabs := (s.tabs - {tabId})[newId := DefaultTab(newId)],
                             panes := s.panes[i := Pane(pane.id, [newId], Some(newId))]))
            && (tabId in pane.tabIds && |pane.tabIds| > 1 ==>
              var k := IndexOf(pane.tabIds, tabId);
              && next.panes == s.panes[i := next.panes[i]] && next.tabs == s.tabs - {tabId}
              && next.panes[i].tabIds == pane.tabIds[..k] + pane.tabIds[k + 1..]
              && next.panes[i].activeTabId ==
                   if pane.activeTabId != Some(tabId) then pane.activeTabId
                   else Some(pane.tabIds[if k + 1 < |pane.tabIds| then k + 1 else k - 1]))
  {
    var i := PaneIndex(s.panes, if Truthy(target) then target.value else s.focusedPaneId);
    var pane := s.panes[i];
    if tabId in pane.tabIds {
      assert ClosedTab(s, tabId, target, newId) == ClosedIn(s, i, tabId, newId);
      if |pane.tabIds| > 1 {
        CloseOneOfMany(s, i, tabId, newId);
      } else {
        assert pane.tabIds == [tabId];
        CloseTheOnly(s, i, tabId, newId);
      }
    }
  }

  lemma {:induction false} WithoutAbsent(xs: seq<string>, x: string)
    requires x !in xs
    ensures Without(xs, x) == xs
    decreases |xs|
  {
    if xs != [] {
      assert xs == xs[..|xs| - 1] + [xs[|xs| - 1]];
      WithoutAbsent(xs[..|xs| - 1], x);
    }
  }

  lemma {:induction false} WithoutSplits(xs: seq<string>, k: nat)
    requires Distinct(xs) && k < |xs|
    ensures Without(xs, xs[k]) == xs[..k] + xs[k + 1..]
    decreases |xs|
  {
    var init, last := xs[..|xs| - 1], xs[|xs| - 1];
    if k == |xs| - 1 {
      WithoutAbsent(init, last);
    } else {
      WithoutSplits(init, k);
      assert init[..k] == xs[..k] && init[k + 1..] + [last] == xs[k + 1..];
    }
  }

  /** Moving a tab back undoes a move, and in between the other tabs keep their order. */
  lemma ReorderThereAndBack(xs: seq<string>, from: int, to: int)
    requires 0 <= from < |xs| && 0 <= to < |xs|
    ensures var ys := Shifted(xs, from, to);
            && |ys| == |xs| && ys[to] == xs[from] && ys[..to] + ys[to + 1..] == xs[..from] + xs[from + 1..]
            && Shifted(ys, to, from) == xs
  {
    var taken, ys := xs[..from] + xs[from + 1..], Shifted(xs, from, to);
    assert ys[..to] == taken[..to] && ys[to + 1..] == taken[to..];
    assert ys[..to] + ys[to + 1..] == taken;
    assert taken[..from] == xs[..from] && taken[from..] == xs[from + 1..];
  }

  /** `next` has grown from `s` by new panes only, each with its one new tab. */
  ghost predicate GrewBy(s: State, next: State, count: nat, newTab: nat -> string)
    requires count <= 4
  {
    && s.panes <= next.panes && next.focusedPaneId == s.focusedPaneId
    && (forall i: nat :: |s.panes| <= i < |next.panes| ==>
          exists k: nat :: 1 <= k <= count && next.panes[i] == Pane(PaneName(k), [newTab(k)], Some(newTab(k))))
  }

  lemma WithPaneKeepsPanes(s: State, paneId: string, tabId: string, other: string)
    ensures HasPane(WithPane(s, paneId, tabId), other) <==> HasPane(s, other) || other == paneId
    ensures s.panes <= WithPane(s, paneId, tabId).panes
  {
    PaneIndexAppend(s.panes, Pane(paneId, [tabId], Some(tabId)), other);
  }

  lemma {:induction false} LayoutOnlyGrows(s: State, count: nat, newTab: nat -> string)
    requires count <= 4
    ensures GrewBy(s, WithPanes(s, count, newTab), count, newTab)
    decreases count
  {
    if count > 0 {
      var before := WithPanes(s, count - 1, newTab);
      var next := WithPanes(s, count, newTab);
      LayoutOnlyGrows(s, count - 1, newTab);
      WithPaneKeepsPanes(before, PaneName(count), newTab(count), "");
      forall i: nat | |s.panes| <= i < |next.panes|
        ensures exists k: nat :: 1 <= k <= count && next.panes[i] == Pane(PaneName(k), [newTab(k)], Some(newTab(k)))
      {
        if i < |before.panes| {
          assert next.panes[i] == before.panes[i];
        } else {
          assert next.panes[i] == Pane(PaneName(count), [newTab(count)], Some(newTab(count)));
        }
      }
    }
  }

  lemma {:induction false} LayoutHasPanes(s: State, count: nat, newTab: nat -> string, i: nat)
    requires 1 <= i <= count <= 4
    ensures HasPane(WithPanes(s, count, newTab), PaneName(i))
    decreases count
  {
    WithPaneKeepsPanes(WithPanes(s, count - 1, newTab), PaneName(count), newTab(count), PaneName(i));
    if i < count { LayoutHasPanes(s, count - 1, newTab, i); }
  }

  /** A layout adds the panes it needs and keeps everything else. */
  lemma LayoutAddsPanes(s: State, kind: LayoutKind, newTab: nat -> string)
    ensures GrewBy(s, LaidOut(s, kind, newTab), RequiredPanes(kind), newTab)
    ensures forall i: nat :: 1 <= i <= RequiredPanes(kind) ==> HasPane(LaidOut(s, kind, newTab), PaneName(i))
  {
    var count := RequiredPanes(kind);
    LayoutOnlyGrows(s, count, newTab);
    forall i: nat | 1 <= i <= count ensures HasPane(LaidOut(s, kind, newTab), PaneName(i)) {
      LayoutHasPanes(s, count, newTab, i);
    }
  }

  /** No tab is left naming a resource that is gone; every other tab is as before. */
  predicate Available(t: Tab, r: Resources) {
    && (t.kind == Chat && Truthy(t.conversationId) ==> t.conversationId.value in r.conversationIds)
    && (t.kind == App && Truthy(t.toolId) ==> t.toolId.value in r.toolIds)
    && (t.kind == Project && Truthy(t.projectId) ==> t.projectId.value in r.projectIds)
  }

  lemma ReconciledTab(t: Tab, r: Resources)
    ensures Available(Reconciled(t, r), r) && (Reconciled(t, r) == t <==> Available(t, r))
    ensures Reconciled(Reconciled(t, r), r) == Reconciled(t, r)
  {
  }

  lemma ReconcileEmptiesTheGone(s: State, r: Resources)
    ensures var next := Reconcile(s, r);
            && next.panes == s.panes && next.tabs.Keys == s.tabs.Keys
            && (forall t :: t in s.tabs ==> Available(next.tabs[t], r))
            && (forall t :: t in s.tabs ==> (next.tabs[t] == s.tabs[t] <==> Available(s.tabs[t], r)))
            && Reconcile(next, r) == next
  {
    var next := Reconcile(s, r);
    forall t | t in s.tabs
      ensures Available(next.tabs[t], r) && (next.tabs[t] == s.tabs[t] <==> Available(s.tabs[t], r))
              && Reconciled(next.tabs[t], r) == next.tabs[t]
    {
      ReconciledTab(s.tabs[t], r);
    }
    assert Reconcile(next, r).tabs == next.tabs;
  }

  // ------------------------------------------------------------ loading a stored workspace

  /** What the schema keeps of a stored workspace: everything but the views. */
  function Erased(s: State): State { s.(tabs := map t | t in s.tabs :: s.tabs[t].(view := None)) }

  function Kept(tabIds: seq<string>, tabs: map<string, Tab>): seq<string> {
    if tabIds == [] then []
    else Kept(tabIds[..|tabIds| - 1], tabs)
         + (if tabIds[|tabIds| - 1] in tabs then [tabIds[|tabIds| - 1]] else [])
  }

  function Repaired(p: Pane, tabs: map<string, Tab>, newId: string): Pane {
    var valid := if Kept(p.tabIds, tabs) == [] then [newId] else Kept(p.tabIds, tabs);
    Pane(p.id, valid, if p.activeTabId.Some? && p.activeTabId.value in valid then p.activeTabId else Some(valid[0]))
  }

  function TabsWith(p: Pane, tabs: map<string, Tab>, newId: string): map<string, Tab> {
    if Kept(p.tabIds, tabs) == [] then tabs[newId := DefaultTab(newId)] else tabs
  }

  /** The tabs after repairing the panes: the replacement tabs come on top. */
  function TabsAfter(panes: seq<Pane>, tabs: map<string, Tab>, newId: string -> string): map<string, Tab> {
    if panes == [] then tabs
    else
      var p := panes[|panes| - 1];
      TabsWith(p, TabsAfter(panes[..|panes| - 1], tabs, newId), newId(p.id))
  }

  function PanesAfter(panes: seq<Pane>, tabs: map<string, Tab>, newId: string -> string): (r: seq<Pane>)
    ensures |r| == |panes|
  {
    if panes == [] then []
    else
      var init, p := panes[..|panes| - 1], panes[|panes| - 1];
      PanesAfter(init, tabs, newId) + [Repaired(p, TabsAfter(init, tabs, newId), newId(p.id))]
  }

  function Sanitized(s: State, newId: string -> string): State
    requires s.panes != []
  {
    var next := s.(panes := PanesAfter(s.panes, s.tabs, newId), tabs := TabsAfter(s.panes, s.tabs, newId));
    if HasPane(next, s.focusedPaneId) then next else next.(focusedPaneId := next.panes[0].id)
  }

  /** `parsed` is the stored workspace if there is one and it has the right shape. */
  function Loaded(parsed: Option<State>, newId: string -> string): State {
    if parsed.None? || parsed.value.panes == [] then DefaultState() else Sanitized(parsed.value, newId)
  }

  method LoadInitialState(parsed: Option<State>, newId: string -> string) returns (s: State)
    ensures s == Loaded(parsed, newId)
  {
    if parsed.None? || |parsed.value.panes| == 0 { return DefaultState(); }
    var panes: seq<Pane>, tabs := [], parsed.value.tabs;
    var i := 0;
    while i < |parsed.value.panes|
      invariant i <= |parsed.value.panes| && |panes| == i
      invariant panes == PanesAfter(parsed.value.panes[..i], parsed.value.tabs, newId)
      invariant tabs == TabsAfter(parsed.value.panes[..i], parsed.value.tabs, newId)
    {
      var p := parsed.value.panes[i];
      assert parsed.value.panes[..i + 1][..i] == parsed.value.panes[..i];
      var pane, next := RepairPane(p, tabs, newId(p.id));
      panes, tabs := panes + [pane], next;
      i := i + 1;
    }
    assert parsed.value.panes[..i] == parsed.value.panes;
    s := parsed.value.(panes := panes, tabs := tabs);
    if !HasPane(s, s.focusedPaneId) {
      s := s.(focusedPaneId := panes[0].id);
    }
  }

  method RepairPane(p: Pane, tabs: map<string, Tab>, newId: string) returns (pane: Pane, next: map<string, Tab>)
    ensures pane == Repaired(p, tabs, newId) && next == TabsWith(p, tabs, newId)
  {
    next := tabs;
    var valid := KeepTabs(p.tabIds, tabs);
    if |valid| == 0 {
      next := tabs[newId := DefaultTab(newId)];
      valid := [newId];
    }
    var active := if p.activeTabId.Some? && p.activeTabId.value in valid then p.activeTabId else Some(valid[0]);
    pane := Pane(p.id, valid, active);
  }

  method KeepTabs(tabIds: seq<string>, tabs: map<string, Tab>) returns (valid: seq<string>)
    ensures valid == Kept(tabIds, tabs)
  {
    valid := [];
    var i := 0;
    while i < |tabIds|
      invariant i <= |tabIds| && valid == Kept(tabIds[..i], tabs)
    {
      assert tabIds[..i + 1][..i] == tabIds[..i];
      if tabIds[i] in tabs { valid := valid + [tabIds[i]]; }
      i := i + 1;
    }
    assert tabIds[..i] == tabIds;
  }

  lemma {:induction false} KeptAll(tabIds: seq<string>, tabs: map<string, Tab>)
    requires forall t :: t in tabIds ==> t in tabs
    ensures Kept(tabIds, tabs) == tabIds
    decreases |tabIds|
  {
    if tabIds != [] {
      assert tabIds == tabIds[..|tabIds| - 1] + [tabIds[|tabIds| - 1]];
      KeptAll(tabIds[..|tabIds| - 1], tabs);
    }
  }

  /** A pane that can be shown: not empty, its tabs known, its active tab among them. */
  predicate Usable(p: Pane, tabs: map<string, Tab>) {
    && p.tabIds != [] && p.activeTabId.Some? && p.activeTabId.value in p.tabIds
    && forall t :: t in p.tabIds ==> t in tabs
  }

  predicate AllUsable(panes: seq<Pane>, tabs: map<string, Tab>) {
    forall i: nat :: i < |panes| ==> Usable(panes[i], tabs)
  }

  lemma RepairOfUsable(p: Pane, tabs: map<string, Tab>, newId: string)
    requires Usable(p, tabs)
    ensures Repaired(p, tabs, newId) == p && TabsWith(p, tabs, newId) == tabs
  {
    KeptAll(p.tabIds, tabs);
  }

  lemma {:induction false} TabsNeedNoRepair(panes: seq<Pane>, tabs: map<string, Tab>, newId: string -> string)
    requires AllUsable(panes, tabs)
    ensures TabsAfter(panes, tabs, newId) == tabs
    decreases |panes|
  {
    if panes != [] {
      TabsNeedNoRepair(panes[..|panes| - 1], tabs, newId);
      RepairOfUsable(panes[|panes| - 1], tabs, newId(panes[|panes| - 1].id));
    }
  }

  lemma {:induction false} PanesNeedNoRepair(panes: seq<Pane>, tabs: map<string, Tab>, newId: string -> string)
    requires AllUsable(panes, tabs)
    ensures PanesAfter(panes, tabs, newId) == panes
    decreases |panes|
  {
    if panes != [] {
      var init, p := panes[..|panes| - 1], panes[|panes| - 1];
      assert AllUsable(init, tabs) && Usable(p, tabs);
      TabsNeedNoRepair(init, tabs, newId);
      PanesNeedNoRepair(init, tabs, newId);
      RepairOfUsable(p, tabs, newId(p.id));
      assert PanesAfter(panes, tabs, newId) == init + [p];
    }
  }

  lemma WellFormedIsUsable(s: State)
    requires WellFormed(s)
    ensures AllUsable(s.panes, s.tabs)
  {
    forall i: nat | i < |s.panes| ensures Usable(s.panes[i], s.tabs) { ListedAt(s.panes, i); }
  }

  lemma UsableDependsOnKeys(panes: seq<Pane>, tabs: map<string, Tab>, tabs': map<string, Tab>)
    requires AllUsable(panes, tabs) && forall t :: t in tabs ==> t in tabs'
    ensures AllUsable(panes, tabs')
  {
  }

  lemma SanitizedIsItself(s: State, newId: string -> string)
    requires s.panes != [] && HasPane(s, s.focusedPaneId) && AllUsable(s.panes, s.tabs)
    ensures Sanitized(s, newId) == s
  {
    TabsNeedNoRepair(s.panes, s.tabs, newId);
    PanesNeedNoRepair(s.panes, s.tabs, newId);
  }

  /** Storing a well-formed workspace and loading it gives it back, without the views. */
  lemma LoadOfStored(s: State, newId: string -> string)
    requires WellFormed(s)
    ensures Loaded(Some(Erased(s)), newId) == Erased(s)
  {
    var e := Erased(s);
    WellFormedIsUsable(s);
    UsableDependsOnKeys(s.panes, s.tabs, e.tabs);
    SanitizedIsItself(e, newId);
  }

  lemma {:induction false} KeptMembers(tabIds: seq<string>, tabs: map<string, Tab>)
    ensures forall t :: t in Kept(tabIds, tabs) <==> t in tabIds && t in tabs
    decreases |tabIds|
  {
    if tabIds != [] {
      var init, last := tabIds[..|tabIds| - 1], tabIds[|tabIds| - 1];
      KeptMembers(init, tabs);
      assert forall t :: t in tabIds <==> t in init || t == last;
    }
  }

  lemma RepairedIsUsable(p: Pane, tabs: map<string, Tab>, newId: string)
    ensures Usable(Repaired(p, tabs, newId), TabsWith(p, tabs, newId))
    ensures forall t :: t in tabs ==> t in TabsWith(p, tabs, newId)
  {
    KeptMembers(p.tabIds, tabs);
  }

  lemma OneMoreUsable(panes: seq<Pane>, p: Pane, tabs: map<string, Tab>)
    requires AllUsable(panes, tabs) && Usable(p, tabs)
    ensures AllUsable(panes + [p], tabs)
  {
  }

  lemma {:induction false} RepairedAreUsable(panes: seq<Pane>, tabs: map<string, Tab>, newId: string -> string)
    ensures AllUsable(PanesAfter(panes, tabs, newId), TabsAfter(panes, tabs, newId))
    decreases |panes|
  {
    if panes != [] {
      var init, p := panes[..|panes| - 1], panes[|panes| - 1];
      var before := TabsAfter(init, tabs, newId);
      RepairedAreUsable(init, tabs, newId);
      RepairedIsUsable(p, before, newId(p.id));
      UsableDependsOnKeys(PanesAfter(init, tabs, newId), before, TabsAfter(panes, tabs, newId));
      OneMoreUsable(PanesAfter(init, tabs, newId), Repaired(p, before, newId(p.id)), TabsAfter(panes, tabs, newId));
    }
  }

  /** Whatever was stored, every loaded pane can be shown and the focused pane exists. */
  lemma LoadIsUsable(parsed: Option<State>, newId: string -> string)
    ensures var s := Loaded(parsed, newId);
            s.panes != [] && HasPane(s, s.focusedPaneId) && AllUsable(s.panes, s.tabs)
  {
    if parsed.None? || parsed.value.panes == [] {
      DefaultIsWellFormed();
      assert PaneOk(DefaultState().panes[0]);
      ListedAt(DefaultState().panes, 0);
    } else {
      RepairedAreUsable(parsed.value.panes, parsed.value.tabs, newId);
      var panes := Loaded(parsed, newId).panes;
      assert PaneIndex(panes, panes[0].id) == 0;
    }
  }
}
