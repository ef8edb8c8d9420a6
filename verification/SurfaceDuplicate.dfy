/** Flattening a component tree and duplicating one with fresh ids and keys (src/lib/surface-ops.ts). */
module SurfaceDuplicate {
  import opened Common

  datatype Prop = Text(text: string) | Other(value: Value)

  /** The props the duplication reads, and the others it copies. */
  datatype Props = Props(
    valueKey: Option<Prop>, preservationKey: Option<Prop>, selectionKey: Option<Prop>, others: map<string, Value>)

  /** The fields of an action that name a component or a state key; `rest` holds the others. The first
      five are renamed in a duplicate, the next five are not. */
  datatype Action = Action(
    componentId: Option<string>, target: Option<string>, includeFields: Option<seq<string>>,
    inputFromState: Option<map<string, string>>, resultKey: Option<string>,
    itemFromState: Option<map<string, string>>, patchFromState: Option<map<string, string>>,
    paramsFromState: Option<map<string, string>>, idFromState: Option<string>, indexFromState: Option<string>,
    rest: Value)

  datatype Node = Node(
    id: string, kind: string, props: Option<Props>, children: Children, actions: Option<seq<Action>>,
    valueKey: Option<string>, rest: Value)

  /** The optional list of children. */
  datatype Children = Absent | Listed(nodes: seq<Node>)

  datatype Row = Row(component: Node, parentId: Option<string>, index: nat)

  function Kids(n: Node): seq<Node> { if n.children.Listed? then n.children.nodes else [] }

  /** The nodes of a forest, each before its children. */
  function Preorder(ns: seq<Node>): seq<Node>
    decreases ns
  {
    if ns == [] then [] else [ns[0]] + (if ns[0].children.Listed? then Preorder(ns[0].children.nodes) else []) + Preorder(ns[1..])
  }

  function Flattened(ns: seq<Node>, parent: Option<string>, at: nat): seq<Row>
    decreases ns
  {
    if ns == [] then []
    else
      var below := if ns[0].children.Listed? then Flattened(ns[0].children.nodes, Some(ns[0].id), 0) else [];
      [Row(ns[0], parent, at)] + below + Flattened(ns[1..], parent, at + 1)
  }

  method FlattenComponents(ns: seq<Node>, parent: Option<string>, out: seq<Row>) returns (rows: seq<Row>)
    ensures rows == out + Flattened(ns, parent, 0)
    decreases ns
  {
    rows := out;
    var i := 0;
    while i < |ns|
      invariant i <= |ns| && rows + Flattened(ns[i..], parent, i) == out + Flattened(ns, parent, 0)
    {
      var component := ns[i];
      ghost var kids := Flattened(Kids(component), Some(component.id), 0);
      ghost var later := Flattened(ns[i + 1..], parent, i + 1);
      assert ns[i..][1..] == ns[i + 1..];
      assert rows + ([Row(component, parent, i)] + kids + later) == rows + [Row(component, parent, i)] + kids + later;
      rows := rows + [Row(component, parent, i)];
      if component.children.Listed? && |component.children.nodes| > 0 {
        rows := FlattenComponents(component.children.nodes, Some(component.id), rows);
      }
      i := i + 1;
    }
    assert rows + [] == rows;
  }

  // ------------------------------------------------------------ the two renamings

  function KeyIn(t: string): set<string> { if Trim(t) != "" then {Trim(t)} else {} }

  function TextKey(p: Option<Prop>): set<string> { if p.Some? && p.value.Text? then KeyIn(p.value.text) else {} }

  /** The state key a node's input is bound to: its own, or else the one in its props. */
  function ValueKeys(n: Node): set<string> {
    if n.valueKey.Some? && Trim(n.valueKey.value) != "" then {Trim(n.valueKey.value)}
    else if n.props.Some? then TextKey(n.props.value.valueKey) else {}
  }

  function KeysOf(n: Node): set<string> {
    ValueKeys(n)
    + (if n.props.Some? then TextKey(n.props.value.preservationKey) + TextKey(n.props.value.selectionKey) else {})
  }

  function AllKeys(ns: seq<Node>): set<string> { set n, k | n in ns && k in KeysOf(n) :: k }

  function CopyOf(key: string, suffix: string): string { key + "_copy_" + suffix }

  function KeyMap(keys: set<string>, suffix: string): map<string, string> { map k | k in keys :: CopyOf(k, suffix) }

  function NewId(kind: string, suffix: string, token: string): string { kind + "-" + suffix + "-" + token }

  /** A drawn id tells the type, the suffix of the duplication and the random part, joined by dashes. */
  lemma NewIdTells(kind: string, suffix: string, token: string)
    ensures var id, n, m := NewId(kind, suffix, token), |kind|, |kind| + 1 + |suffix|;
            && |id| == m + 1 + |token| && id[..n] == kind && id[n] == '-' && id[n + 1..m] == suffix && id[m] == '-'
            && id[m + 1..] == token
  {
  }

  /** The ids given to nodes in turn; a later node with the same id replaces the earlier entry. */
  function IdsAfter(ids: map<string, string>, ns: seq<Node>, suffix: string, token: nat -> string, drawn: nat)
    : map<string, string>
    decreases |ns|
  {
    if ns == [] then ids
    else IdsAfter(ids[ns[0].id := NewId(ns[0].kind, suffix, token(drawn))], ns[1..], suffix, token, drawn + 1)
  }

  function Renamed(names: map<string, string>, name: string): string { if name in names then names[name] else name }

  function RenamedOption(names: map<string, string>, name: Option<string>): Option<string> {
    if name.Some? then Some(Renamed(names, name.value)) else None
  }

  function RenamedAll(names: map<string, string>, xs: seq<string>): seq<string> {
    if xs == [] then [] else RenamedAll(names, xs[..|xs| - 1]) + [Renamed(names, xs[|xs| - 1])]
  }

  function RenamedProp(names: map<string, string>, p: Option<Prop>): Option<Prop> {
    if p.Some? && p.value.Text? then Some(Text(Renamed(names, p.value.text))) else p
  }

  // ------------------------------------------------------------ the clone

  /** The renaming a duplication settled on. */
  datatype Renaming = Renaming(ids: map<string, string>, keys: map<string, string>)

  function ClonedAction(r: Renaming, a: Action): Action {
    Action(RenamedOption(r.ids, a.componentId), RenamedOption(r.keys, a.target),
           if a.includeFields.Some? then Some(RenamedAll(r.keys, a.includeFields.value)) else None,
           if a.inputFromState.Some? then Some(map p | p in a.inputFromState.value :: Renamed(r.keys, a.inputFromState.value[p]))
           else None,
           RenamedOption(r.keys, a.resultKey),
           a.itemFromState, a.patchFromState, a.paramsFromState, a.idFromState, a.indexFromState, a.rest)
  }

  function ClonedActions(r: Renaming, actions: seq<Action>): seq<Action> {
    if actions == [] then [] else ClonedActions(r, actions[..|actions| - 1]) + [ClonedAction(r, actions[|actions| - 1])]
  }

  function ClonedProps(r: Renaming, props: Option<Props>): Props {
    var p := if props.Some? then props.value else Props(None, None, None, map[]);
    Props(RenamedProp(r.keys, p.valueKey), RenamedProp(r.keys, p.preservationKey),
          RenamedProp(r.keys, p.selectionKey), p.others)
  }

  function ClonedNode(r: Renaming, n: Node): Node
    decreases n
  {
    Node(Renamed(r.ids, n.id), n.kind, Some(ClonedProps(r, n.props)),
         if n.children.Listed? && n.children.nodes != [] then Listed(Cloned(r, n.children.nodes)) else Absent,
         if n.actions.Some? && n.actions.value != [] then Some(ClonedActions(r, n.actions.value)) else None,
         RenamedOption(r.keys, n.valueKey), n.rest)
  }

  function Cloned(r: Renaming, ns: seq<Node>): seq<Node>
    decreases ns
  {
    if ns == [] then [] else [ClonedNode(r, ns[0])] + Cloned(r, ns[1..])
  }

  /** A clone has no empty list of children or actions, and none where the source has none. */
  lemma EmptyListsAreDropped(r: Renaming, n: Node)
    ensures var c := ClonedNode(r, n);
            && (c.children.Listed? ==> c.children.nodes != [] && n.children.Listed?)
            && (c.actions.Some? ==> c.actions.value != [] && n.actions.Some?)
            && (n.children.Listed? && n.children.nodes != [] ==> c.children.Listed?)
            && (n.actions.Some? && n.actions.value != [] ==> c.actions.Some?)
  {
    if n.children.Listed? && n.children.nodes != [] { assert |Cloned(r, n.children.nodes)| > 0; }
  }

  /** The renaming for one node's tree, drawing `token(0)`, `token(1)`, ... in preorder. */
  function RenamingFor(n: Node, suffix: string, token: nat -> string): Renaming {
    Renaming(IdsAfter(map[], Preorder([n]), suffix, token, 0), KeyMap(AllKeys(Preorder([n])), suffix))
  }

  // ------------------------------------------------------------ the duplication as it runs

  class Duplicator {
    const suffix: string
    const token: nat -> string
    var idMap: map<string, string>
    var keyMap: map<string, string>
    var drawn: nat

    constructor (suffix: string, token: nat -> string)
      ensures this.suffix == suffix && this.token == token
      ensures idMap == map[] && keyMap == KeyMap({}, suffix) && drawn == 0
    {
      this.suffix, this.token := suffix, token;
      idMap, keyMap, drawn := map[], map[], 0;
    }

    /** The first key seen fixes the entry; the entry only depends on the key. */
    method Register(t: string, ghost keys: set<string>)
      requires keyMap == KeyMap(keys, suffix)
      modifies this`keyMap
      ensures keyMap == KeyMap(keys + KeyIn(t), suffix)
    {
      var key := Trim(t);
      if key != "" && key !in keyMap {
        keyMap := keyMap[key := key + "_copy_" + suffix];
      }
    }

    method RegisterProp(p: Option<Prop>, ghost keys: set<string>)
      requires keyMap == KeyMap(keys, suffix)
      modifies this`keyMap
      ensures keyMap == KeyMap(keys + TextKey(p), suffix)
    {
      if p.Some? && p.value.Text? {
        Register(p.value.text, keys);
      } else {
        assert keys + TextKey(p) == keys;
      }
    }

    method RegisterNode(n: Node, ghost keys: set<string>)
      requires keyMap == KeyMap(keys, suffix)
      modifies this`keyMap
      ensures keyMap == KeyMap(keys + KeysOf(n), suffix)
    {
      if n.valueKey.Some? && Trim(n.valueKey.value) != "" {
        Register(n.valueKey.value, keys);
      } else if n.props.Some? {
        RegisterProp(n.props.value.valueKey, keys);
      } else {
        assert keys + ValueKeys(n) == keys;
      }
      ghost var seen := keys + ValueKeys(n);
      if n.props.Some? {
        RegisterProp(n.props.value.preservationKey, seen);
        RegisterProp(n.props.value.selectionKey, seen + TextKey(n.props.value.preservationKey));
        assert seen + TextKey(n.props.value.preservationKey) + TextKey(n.props.value.selectionKey) == keys + KeysOf(n);
      } else {
        assert keys + KeysOf(n) == seen;
      }
    }

    /** Lists the node's tree: one new id per node, one entry per key. */
    method PreScan(n: Node, ghost keys: set<string>)
      requires keyMap == KeyMap(keys, suffix)
      modifies this`idMap, this`keyMap, this`drawn
      ensures Scanned(old(idMap), keys, old(drawn), Preorder([n]), idMap, keyMap, drawn)
      decreases n
    {
      idMap := idMap[n.id := NewId(n.kind, suffix, token(drawn))];
      drawn := drawn + 1;
      RegisterNode(n, keys);
      if n.children.Listed? {
        PreScanChildren(n.children.nodes, keys + KeysOf(n));
      } else {
        NothingListed(keys + KeysOf(n));
      }
      ScanBelow(keys, n);
    }

    method PreScanChildren(ns: seq<Node>, ghost keys: set<string>)
      requires keyMap == KeyMap(keys, suffix)
      modifies this`idMap, this`keyMap, this`drawn
      ensures Scanned(old(idMap), keys, old(drawn), Preorder(ns), idMap, keyMap, drawn)
      decreases ns
    {
      ghost var ids, start := idMap, drawn;
      NothingListed(keys);
      var i := 0;
      while i < |ns|
        invariant i <= |ns| && Scanned(ids, keys, start, Preorder(ns[..i]), idMap, keyMap, drawn)
      {
        PreScan(ns[i], keys + AllKeys(Preorder(ns[..i])));
        ScanOneMore(ids, keys, ns, i, suffix, token, start);
        i := i + 1;
      }
      assert ns[..i] == ns;
    }

    /** The maps after listing `ns`, from the ids, the keys and the tokens drawn before. */
    ghost predicate Scanned(ids: map<string, string>, keys: set<string>, start: nat, ns: seq<Node>,
                            ids': map<string, string>, keys': map<string, string>, at: nat)
    {
      && ids' == IdsAfter(ids, ns, suffix, token, start)
      && keys' == KeyMap(keys + AllKeys(ns), suffix)
      && at == start + |ns|
    }

    /** Every node's id has an entry by now. */
    method CloneNode(n: Node) returns (clone: Node)
      requires forall m :: m in Preorder([n]) ==> m.id in idMap
      ensures clone == ClonedNode(Renaming(idMap, keyMap), n)
      decreases n
    {
      PreorderOfOne(n);
      assert n in Preorder([n]);
      var newId := idMap[n.id];
      var props := ClonedProps(Renaming(idMap, keyMap), n.props);
      var actions := None;
      if n.actions.Some? {
        var remapped := RemapActions(n.actions.value);
        if |remapped| > 0 { actions := Some(remapped); }
      }
      var children := Absent;
      if n.children.Listed? {
        var kids := CloneChildren(n.children.nodes);
        if |kids| > 0 { children := Listed(kids); }
      }
      clone := Node(newId, n.kind, Some(props), children, actions, RenamedOption(keyMap, n.valueKey), n.rest);
    }

    method CloneChildren(ns: seq<Node>) returns (kids: seq<Node>)
      requires forall m :: m in Preorder(ns) ==> m.id in idMap
      ensures kids == Cloned(Renaming(idMap, keyMap), ns) && |kids| == |ns|
      decreases ns
    {
      ghost var r := Renaming(idMap, keyMap);
      kids := [];
      var i := 0;
      while i < |ns|
        invariant i <= |ns| && |kids| == i && kids == Cloned(r, ns[..i])
      {
        InPreorder(ns, i);
        var kid := CloneNode(ns[i]);
        ClonedExtend(r, ns, i);
        kids := kids + [kid];
        i := i + 1;
      }
      assert ns[..i] == ns;
    }

    method RemapActions(actions: seq<Action>) returns (remapped: seq<Action>)
      ensures remapped == ClonedActions(Renaming(idMap, keyMap), actions) && |remapped| == |actions|
    {
      remapped := [];
      var i := 0;
      while i < |actions|
        invariant i <= |actions| && remapped == ClonedActions(Renaming(idMap, keyMap), actions[..i]) && |remapped| == i
      {
        assert actions[..i + 1][..i] == actions[..i];
        var cloned := RemapAction(actions[i]);
        remapped := remapped + [cloned];
        i := i + 1;
      }
      assert actions[..i] == actions;
    }

    method RemapAction(action: Action) returns (cloned: Action)
      ensures cloned == ClonedAction(Renaming(idMap, keyMap), action)
    {
      cloned := action;
      if cloned.componentId.Some? && cloned.componentId.value in idMap {
        cloned := cloned.(componentId := Some(idMap[cloned.componentId.value]));
      }
      if cloned.target.Some? && cloned.target.value in keyMap {
        cloned := cloned.(target := Some(keyMap[cloned.target.value]));
      }
      if cloned.includeFields.Some? {
        var fields, k: nat := [], 0;
        while k < |action.includeFields.value|
          invariant k <= |action.includeFields.value| && fields == RenamedAll(keyMap, action.includeFields.value[..k])
        {
          assert action.includeFields.value[..k + 1][..k] == action.includeFields.value[..k];
          fields := fields + [Renamed(keyMap, action.includeFields.value[k])];
          k := k + 1;
        }
        assert action.includeFields.value[..k] == action.includeFields.value;
        cloned := cloned.(includeFields := Some(fields));
      }
      if cloned.inputFromState.Some? {
        var input := cloned.inputFromState.value;
        cloned := cloned.(inputFromState := Some(map p | p in input :: Renamed(keyMap, input[p])));
      }
      if cloned.resultKey.Some? && cloned.resultKey.value in keyMap {
        cloned := cloned.(resultKey := Some(keyMap[cloned.resultKey.value]));
      }
    }
  }

  method SafeDuplicateComponent(n: Node, suffix: string, token: nat -> string) returns (clone: Node)
    ensures clone == ClonedNode(RenamingFor(n, suffix, token), n)
  {
    var duplicator := new Duplicator(suffix, token);
    duplicator.PreScan(n, {});
    assert {} + AllKeys(Preorder([n])) == AllKeys(Preorder([n]));
    IdsCover(map[], Preorder([n]), suffix, token, 0);
    clone := duplicator.CloneNode(n);
  }

  lemma {:induction false} ClonedExtend(r: Renaming, ns: seq<Node>, i: nat)
    requires i < |ns|
    ensures Cloned(r, ns[..i + 1]) == Cloned(r, ns[..i]) + [ClonedNode(r, ns[i])]
    decreases i
  {
    if i > 0 {
      assert ns[..i + 1][1..] == ns[1..][..i] && ns[..i][1..] == ns[1..][..i - 1];
      ClonedExtend(r, ns[1..], i - 1);
    }
  }

  // Lemmas about the listing and the two maps

  lemma NothingListed(keys: set<string>)
    ensures Preorder([]) == [] && keys + AllKeys([]) == keys
  {
  }

  lemma ScanOneMore(ids: map<string, string>, keys: set<string>, ns: seq<Node>, i: nat,
                    suffix: string, token: nat -> string, at: nat)
    requires i < |ns|
    ensures var done, now := Preorder(ns[..i]), Preorder(ns[..i + 1]);
            && |now| == |done| + |Preorder([ns[i]])|
            && keys + AllKeys(done) + AllKeys(Preorder([ns[i]])) == keys + AllKeys(now)
            && IdsAfter(IdsAfter(ids, done, suffix, token, at), Preorder([ns[i]]), suffix, token, at + |done|)
               == IdsAfter(ids, now, suffix, token, at)
  {
    var done := Preorder(ns[..i]);
    PreorderExtend(ns, i);
    IdsConcat(ids, done, Preorder([ns[i]]), suffix, token, at);
    KeysConcat(done, Preorder([ns[i]]));
    UnionAssociates(keys, AllKeys(done), AllKeys(Preorder([ns[i]])));
  }

  lemma UnionAssociates(a: set<string>, b: set<string>, c: set<string>)
    ensures a + b + c == a + (b + c)
  {
  }

  lemma ScanBelow(keys: set<string>, n: Node)
    ensures Preorder([n]) == [n] + Preorder(Kids(n)) && Preorder([n])[1..] == Preorder(Kids(n))
    ensures keys + AllKeys(Preorder([n])) == keys + KeysOf(n) + AllKeys(Preorder(Kids(n)))
  {
    PreorderOfOne(n);
    KeysConcat([n], Preorder(Kids(n)));
    assert AllKeys([n]) == KeysOf(n);
    assert keys + (KeysOf(n) + AllKeys(Preorder(Kids(n)))) == keys + KeysOf(n) + AllKeys(Preorder(Kids(n)));
  }

  lemma PreorderOfOne(n: Node)
    ensures Preorder([n]) == [n] + Preorder(Kids(n))
  {
    assert [n][1..] == [];
  }

  lemma {:induction false} PreorderConcat(a: seq<Node>, b: seq<Node>)
    ensures Preorder(a + b) == Preorder(a) + Preorder(b)
    decreases |a|
  {
    if a == [] {
      assert a + b == b;
    } else {
      assert (a + b)[1..] == a[1..] + b;
      PreorderConcat(a[1..], b);
      assert Preorder(a + b) == [a[0]] + Preorder(Kids(a[0])) + (Preorder(a[1..]) + Preorder(b));
    }
  }

  lemma PreorderExtend(ns: seq<Node>, i: nat)
    requires i < |ns|
    ensures Preorder(ns[..i + 1]) == Preorder(ns[..i]) + Preorder([ns[i]])
  {
    assert ns[..i + 1] == ns[..i] + [ns[i]];
    PreorderConcat(ns[..i], [ns[i]]);
  }

  lemma InPreorder(ns: seq<Node>, i: nat)
    requires i < |ns|
    ensures forall m :: m in Preorder([ns[i]]) ==> m in Preorder(ns)
  {
    assert ns == ns[..i] + ([ns[i]] + ns[i + 1..]);
    PreorderConcat(ns[..i], [ns[i]] + ns[i + 1..]);
    PreorderConcat([ns[i]], ns[i + 1..]);
  }

  lemma KeysConcat(a: seq<Node>, b: seq<Node>)
    ensures AllKeys(a + b) == AllKeys(a) + AllKeys(b)
  {
    forall k | k in AllKeys(a) + AllKeys(b) ensures k in AllKeys(a + b) {
      if k in AllKeys(a) {
        var n :| n in a && k in KeysOf(n);
        assert n in a + b;
      } else {
        var n :| n in b && k in KeysOf(n);
        assert n in a + b;
      }
    }
  }

  lemma {:induction false} IdsConcat(
      ids: map<string, string>, a: seq<Node>, b: seq<Node>, suffix: string, token: nat -> string, drawn: nat)
    ensures IdsAfter(ids, a + b, suffix, token, drawn)
         == IdsAfter(IdsAfter(ids, a, suffix, token, drawn), b, suffix, token, drawn + |a|)
    decreases |a|
  {
    if a == [] {
      assert a + b == b;
    } else {
      assert (a + b)[1..] == a[1..] + b;
      IdsConcat(ids[a[0].id := NewId(a[0].kind, suffix, token(drawn))], a[1..], b, suffix, token, drawn + 1);
    }
  }

  /** `id` is new for a node listed under `ns`, the one in place `i`. */
  ghost predicate DrawnFor(ns: seq<Node>, i: nat, suffix: string, token: nat -> string, drawn: nat, id: string, new': string) {
    i < |ns| && ns[i].id == id && new' == NewId(ns[i].kind, suffix, token(drawn + i))
  }

  /** An entry was there before and is unchanged, or it is the id drawn for a listed node. */
  lemma {:induction false} IdsOrigin(
      ids: map<string, string>, ns: seq<Node>, suffix: string, token: nat -> string, drawn: nat, id: string)
    returns (i: Option<nat>)
    requires id in IdsAfter(ids, ns, suffix, token, drawn)
    ensures i.Some? ==> DrawnFor(ns, i.value, suffix, token, drawn, id, IdsAfter(ids, ns, suffix, token, drawn)[id])
    ensures i.None? ==> id in ids && IdsAfter(ids, ns, suffix, token, drawn)[id] == ids[id]
    decreases |ns|
  {
    if ns == [] { return None; }
    i := IdsOrigin(ids[ns[0].id := NewId(ns[0].kind, suffix, token(drawn))], ns[1..], suffix, token, drawn + 1, id);
    if i.Some? {
      i := Some(i.value + 1);
    } else if id == ns[0].id {
      i := Some(0);
    }
  }

  /** Every listed node's id has an entry. */
  lemma {:induction false} IdsCover(ids: map<string, string>, ns: seq<Node>, suffix: string, token: nat -> string, drawn: nat)
    ensures forall n :: n in ns ==> n.id in IdsAfter(ids, ns, suffix, token, drawn)
    ensures forall id :: id in ids ==> id in IdsAfter(ids, ns, suffix, token, drawn)
    decreases |ns|
  {
    if ns != [] {
      IdsCover(ids[ns[0].id := NewId(ns[0].kind, suffix, token(drawn))], ns[1..], suffix, token, drawn + 1);
      assert forall n :: n in ns ==> n == ns[0] || n in ns[1..];
    }
  }
}
