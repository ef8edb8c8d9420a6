/** What a duplicate keeps and what it separates (src/lib/surface-ops.ts). */
module DuplicateLaws {
  import opened Common
  import opened SurfaceDuplicate

  // ------------------------------------------------------------ the clone flattens like the source

  function ClonedRow(r: Renaming, row: Row): Row {
    Row(ClonedNode(r, row.component), RenamedOption(r.ids, row.parentId), row.index)
  }

  function ClonedRows(r: Renaming, rows: seq<Row>): (c: seq<Row>)
    ensures |c| == |rows| && forall i: nat :: i < |rows| ==> c[i] == ClonedRow(r, rows[i])
  {
    seq(|rows|, i requires 0 <= i < |rows| => ClonedRow(r, rows[i]))
  }

  lemma ClonedRowsConcat(r: Renaming, a: seq<Row>, b: seq<Row>)
    ensures ClonedRows(r, a + b) == ClonedRows(r, a) + ClonedRows(r, b)
  {
  }

  /** Row by row, the clone's flattening is the source's with every component cloned and every parent
      link renamed: same shape, same places. */
  lemma {:induction false} FlattenOfClone(r: Renaming, ns: seq<Node>, parent: Option<string>, at: nat)
    ensures Flattened(Cloned(r, ns), RenamedOption(r.ids, parent), at) == ClonedRows(r, Flattened(ns, parent, at))
    decreases ns
  {
    if ns != [] {
      var n := ns[0];
      var first := [Row(n, parent, at)];
      var below := if n.children.Listed? then Flattened(n.children.nodes, Some(n.id), 0) else [];
      FlattenOfClone(r, ns[1..], parent, at + 1);
      assert Cloned(r, ns)[1..] == Cloned(r, ns[1..]);
      if n.children.Listed? {
        FlattenOfClone(r, n.children.nodes, Some(n.id), 0);
      }
      ClonedRowsConcat(r, first, below);
      ClonedRowsConcat(r, first + below, Flattened(ns[1..], parent, at + 1));
      assert ClonedRows(r, first) == [ClonedRow(r, first[0])];
    }
  }

  function Components(rows: seq<Row>): (ns: seq<Node>)
    ensures |ns| == |rows| && forall i: nat :: i < |rows| ==> ns[i] == rows[i].component
  {
    seq(|rows|, i requires 0 <= i < |rows| => rows[i].component)
  }

  /** The flattening lists the nodes in preorder. */
  lemma {:induction false} FlattenedIsPreorder(ns: seq<Node>, parent: Option<string>, at: nat)
    ensures Components(Flattened(ns, parent, at)) == Preorder(ns)
    decreases ns
  {
    if ns != [] {
      FlattenedIsPreorder(ns[1..], parent, at + 1);
      if ns[0].children.Listed? { FlattenedIsPreorder(ns[0].children.nodes, Some(ns[0].id), 0); }
    }
  }

  /** The row is the listed child of the node it names as its parent, or one of the forest itself. */
  predicate InItsPlace(rows: seq<Row>, m: nat, ns: seq<Node>, parent: Option<string>, at: nat)
    requires m < |rows|
  {
    var row := rows[m];
    || (row.parentId == parent && at <= row.index < at + |ns| && row.component == ns[row.index - at])
    || (exists q: nat :: q < m && IsChildOf(row, rows[q].component))
  }

  predicate IsChildOf(row: Row, n: Node) {
    row.parentId == Some(n.id) && row.index < |Kids(n)| && row.component == Kids(n)[row.index]
  }

  lemma ShiftedPlace(rows: seq<Row>, part: seq<Row>, off: nat, m: nat, ns: seq<Node>, parent: Option<string>, at: nat)
    requires off + |part| <= |rows| && rows[off..off + |part|] == part && m < |part|
    requires InItsPlace(part, m, ns, parent, at)
    ensures InItsPlace(rows, off + m, ns, parent, at)
  {
    assert forall q: nat :: q < |part| ==> part[q] == rows[off + q];
  }

  lemma FlattenedStep(ns: seq<Node>, parent: Option<string>, at: nat)
    requires ns != []
    ensures Flattened(ns, parent, at)
         == [Row(ns[0], parent, at)] + Flattened(Kids(ns[0]), Some(ns[0].id), 0) + Flattened(ns[1..], parent, at + 1)
  {
  }

  lemma PlaceFirst(first: Row, others: seq<Row>, ns: seq<Node>, parent: Option<string>, at: nat)
    requires ns != [] && first == Row(ns[0], parent, at)
    ensures InItsPlace([first] + others, 0, ns, parent, at)
  {
  }

  lemma PlaceBelow(first: Row, below: seq<Row>, later: seq<Row>, m: nat, ns: seq<Node>, parent: Option<string>, at: nat)
    requires ns != [] && first.component == ns[0] && m < |below|
    requires InItsPlace(below, m, Kids(ns[0]), Some(ns[0].id), 0)
    ensures InItsPlace([first] + below + later, 1 + m, ns, parent, at)
  {
    var rows := [first] + below + later;
    assert rows[1..1 + |below|] == below;
    ShiftedPlace(rows, below, 1, m, Kids(ns[0]), Some(ns[0].id), 0);
    assert rows[0] == first && rows[1 + m] == below[m];
  }

  lemma PlaceLater(first: Row, below: seq<Row>, later: seq<Row>, m: nat, ns: seq<Node>, parent: Option<string>, at: nat)
    requires ns != [] && m < |later| && InItsPlace(later, m, ns[1..], parent, at + 1)
    ensures InItsPlace([first] + below + later, 1 + |below| + m, ns, parent, at)
  {
    var rows := [first] + below + later;
    assert rows[1 + |below|..1 + |below| + |later|] == later;
    ShiftedPlace(rows, later, 1 + |below|, m, ns[1..], parent, at + 1);
  }

  /** Every row of a flattening comes after its parent's row and says where it hangs. */
  lemma {:induction false} RowsAreInPlace(ns: seq<Node>, parent: Option<string>, at: nat, m: nat)
    requires m < |Flattened(ns, parent, at)|
    ensures InItsPlace(Flattened(ns, parent, at), m, ns, parent, at)
    decreases ns
  {
    var n := ns[0];
    var first, below, later := Row(n, parent, at), Flattened(Kids(n), Some(n.id), 0), Flattened(ns[1..], parent, at + 1);
    FlattenedStep(ns, parent, at);
    if m == 0 {
      PlaceFirst(first, below + later, ns, parent, at);
      assert [first] + (below + later) == [first] + below + later;
    } else if m <= |below| {
      RowsAreInPlace(Kids(n), Some(n.id), 0, m - 1);
      PlaceBelow(first, below, later, m - 1, ns, parent, at);
    } else {
      RowsAreInPlace(ns[1..], parent, at + 1, m - 1 - |below|);
      PlaceLater(first, below, later, m - 1 - |below|, ns, parent, at);
    }
  }

  // ------------------------------------------------------------ ids

  /** The drawn ids are pairwise distinct and not in use as component ids of the tree. */
  ghost predicate FreshIds(ns: seq<Node>, suffix: string, token: nat -> string) {
    && (forall i: nat, j: nat :: i < j < |ns| ==> NewId(ns[i].kind, suffix, token(i)) != NewId(ns[j].kind, suffix, token(j)))
    && (forall i: nat, j: nat :: i < |ns| && j < |ns| ==> NewId(ns[i].kind, suffix, token(i)) != ns[j].id)
  }

  lemma IdsAreRenamed(ns: seq<Node>, suffix: string, token: nat -> string, a: Node, b: Node)
    requires FreshIds(ns, suffix, token) && a in ns && b in ns
    ensures var ids := IdsAfter(map[], ns, suffix, token, 0);
            && (Renamed(ids, a.id) == Renamed(ids, b.id) <==> a.id == b.id)
            && Renamed(ids, a.id) != b.id
  {
    IdsCover(map[], ns, suffix, token, 0);
    var i := IdsOrigin(map[], ns, suffix, token, 0, a.id);
    var j := IdsOrigin(map[], ns, suffix, token, 0, b.id);
    var k :| 0 <= k < |ns| && ns[k] == b;
    assert NewId(ns[i.value].kind, suffix, token(i.value)) != ns[k].id;
  }

  // ------------------------------------------------------------ keys

  function Mark(suffix: string): string { "_copy_" + suffix }

  /** The name does not end in the mark that copied keys get. */
  predicate Unmarked(name: string, suffix: string) {
    var m := Mark(suffix);
    |name| < |m| || name[|name| - |m|..] != m
  }

  predicate UnmarkedOption(name: Option<string>, suffix: string) { name.Some? ==> Unmarked(name.value, suffix) }

  lemma CopiesAreMarked(key: string, suffix: string)
    ensures !Unmarked(CopyOf(key, suffix), suffix)
    ensures CopyOf(key, suffix)[..|key|] == key && |CopyOf(key, suffix)| == |key| + |Mark(suffix)|
  {
    assert CopyOf(key, suffix) == key + Mark(suffix);
  }

  /** Renaming keeps unmarked names apart and moves exactly the registered ones away. */
  lemma KeysAreRenamed(keys: set<string>, suffix: string, a: string, b: string)
    requires Unmarked(a, suffix) && Unmarked(b, suffix)
    ensures Renamed(KeyMap(keys, suffix), a) == Renamed(KeyMap(keys, suffix), b) <==> a == b
    ensures Renamed(KeyMap(keys, suffix), a) == b <==> a == b && a !in keys
  {
    CopiesAreMarked(a, suffix);
    CopiesAreMarked(b, suffix);
  }

  /** A key as the duplication registers it: trimmed and not empty. */
  predicate Clean(key: string) { Trimmed(key) && key != "" }

  /** A node's own key is registered exactly when it is clean, or some other node registers it. */
  lemma RegisteredKeys(ns: seq<Node>, n: Node)
    requires n in ns && n.valueKey.Some?
    ensures n.valueKey.value in AllKeys(ns) <==> Clean(n.valueKey.value)
  {
    var key := n.valueKey.value;
    if key in AllKeys(ns) {
      var m :| m in ns && key in KeysOf(m);
      KeysAreClean(m, key);
    }
    if Clean(key) { assert key in KeysOf(n); }
  }

  lemma PropKeyIsClean(p: Option<Prop>, key: string)
    ensures key in TextKey(p) ==> Clean(key)
  {
    if p.Some? && p.value.Text? { TrimShape(p.value.text); }
  }

  lemma KeysAreClean(n: Node, key: string)
    requires key in KeysOf(n)
    ensures Clean(key)
  {
    if n.valueKey.Some? { TrimShape(n.valueKey.value); }
    if n.props.Some? {
      PropKeyIsClean(n.props.value.valueKey, key);
      PropKeyIsClean(n.props.value.preservationKey, key);
      PropKeyIsClean(n.props.value.selectionKey, key);
    }
  }

  /** Some node of the tree, or of its clone, is bound to the key itself. */
  predicate Binds(rows: seq<Row>, key: string) { exists i: nat :: i < |rows| && rows[i].component.valueKey == Some(key) }

  predicate UnmarkedKeys(rows: seq<Row>, suffix: string) {
    forall i: nat :: i < |rows| && rows[i].component.valueKey.Some? ==> Unmarked(rows[i].component.valueKey.value, suffix)
  }

  function Source(n: Node): seq<Row> { Flattened([n], None, 0) }

  function Copy(n: Node, suffix: string, token: nat -> string): seq<Row> {
    Flattened([ClonedNode(RenamingFor(n, suffix, token), n)], None, 0)
  }

  lemma CopyRows(n: Node, suffix: string, token: nat -> string)
    ensures Copy(n, suffix, token) == ClonedRows(RenamingFor(n, suffix, token), Source(n))
    ensures Components(Source(n)) == Preorder([n])
  {
    var r := RenamingFor(n, suffix, token);
    assert Cloned(r, [n]) == [ClonedNode(r, n)];
    FlattenOfClone(r, [n], None, 0);
    FlattenedIsPreorder([n], None, 0);
  }

  /** A duplicate is a renaming of its source. Place by place it has the same kind, index and parent;
      two of its nodes share an id exactly when their sources do, also when the source repeats ids;
      and none of its ids occurs in the source. */
  lemma DuplicateRenamesIds(n: Node, suffix: string, token: nat -> string, i: nat, j: nat)
    requires FreshIds(Preorder([n]), suffix, token) && i < |Source(n)| && j < |Source(n)|
    ensures |Copy(n, suffix, token)| == |Source(n)|
    ensures var s, c, ids := Source(n), Copy(n, suffix, token), RenamingFor(n, suffix, token).ids;
            && c[i].component.kind == s[i].component.kind && c[i].index == s[i].index
            && c[i].component.id == Renamed(ids, s[i].component.id)
            && c[i].parentId == RenamedOption(ids, s[i].parentId)
            && (c[i].component.id == c[j].component.id <==> s[i].component.id == s[j].component.id)
            && c[i].component.id != s[j].component.id
  {
    CopyRows(n, suffix, token);
    var ns := Components(Source(n));
    assert ns[i] in ns && ns[j] in ns;
    IdsAreRenamed(ns, suffix, token, Source(n)[i].component, Source(n)[j].component);
  }

  /** Two nodes of the clone share a key exactly when they do in the source. No key is bound on both
      sides exactly when every key of the source is clean: a key with white space around it, or
      nothing else, is left as it is and stays shared. */
  lemma DuplicateSeparatesKeys(n: Node, suffix: string, token: nat -> string)
    requires UnmarkedKeys(Source(n), suffix)
    ensures |Copy(n, suffix, token)| == |Source(n)|
    ensures forall i: nat, j: nat :: i < |Source(n)| && j < |Source(n)| ==>
              (Copy(n, suffix, token)[i].component.valueKey == Copy(n, suffix, token)[j].component.valueKey
               <==> Source(n)[i].component.valueKey == Source(n)[j].component.valueKey)
    ensures (forall key :: !(Binds(Source(n), key) && Binds(Copy(n, suffix, token), key)))
       <==> (forall i: nat :: i < |Source(n)| && Source(n)[i].component.valueKey.Some? ==>
               Clean(Source(n)[i].component.valueKey.value))
  {
    CopyRows(n, suffix, token);
    var s, c, keys := Source(n), Copy(n, suffix, token), AllKeys(Preorder([n]));
    forall i: nat, j: nat | i < |s| && j < |s|
      ensures c[i].component.valueKey == c[j].component.valueKey <==> s[i].component.valueKey == s[j].component.valueKey
    {
      KeysAt(n, suffix, token, i, j);
    }
    if i: nat :| i < |s| && s[i].component.valueKey.Some? && !Clean(s[i].component.valueKey.value) {
      var key := s[i].component.valueKey.value;
      KeysAt(n, suffix, token, i, i);
      assert Binds(s, key) && Binds(c, key);
    } else {
      forall key ensures !(Binds(s, key) && Binds(c, key)) {
        NotBoundTwice(n, suffix, token, key);
      }
    }
  }

  lemma KeysAt(n: Node, suffix: string, token: nat -> string, i: nat, j: nat)
    requires UnmarkedKeys(Source(n), suffix) && i < |Source(n)| && j < |Source(n)|
    ensures |Copy(n, suffix, token)| == |Source(n)|
    ensures var s, c := Source(n), Copy(n, suffix, token);
            && (c[i].component.valueKey == c[j].component.valueKey
                <==> s[i].component.valueKey == s[j].component.valueKey)
            && (c[i].component.valueKey == s[j].component.valueKey && s[j].component.valueKey.Some?
                <==> s[i].component.valueKey == s[j].component.valueKey && s[j].component.valueKey.Some?
                     && !Clean(s[i].component.valueKey.value))
  {
    CopyRows(n, suffix, token);
    var s, ns := Source(n), Preorder([n]);
    var a, b := s[i].component.valueKey, s[j].component.valueKey;
    assert ns[i] in ns;
    if a.Some? {
      RegisteredKeys(ns, ns[i]);
      if b.Some? { KeysAreRenamed(AllKeys(ns), suffix, a.value, b.value); }
    }
  }

  lemma NotBoundTwice(n: Node, suffix: string, token: nat -> string, key: string)
    requires UnmarkedKeys(Source(n), suffix)
    requires forall i: nat :: i < |Source(n)| && Source(n)[i].component.valueKey.Some? ==>
               Clean(Source(n)[i].component.valueKey.value)
    ensures !(Binds(Source(n), key) && Binds(Copy(n, suffix, token), key))
  {
    CopyRows(n, suffix, token);
    forall i: nat, j: nat | i < |Source(n)| && j < |Source(n)|
      ensures !(Copy(n, suffix, token)[i].component.valueKey == Source(n)[j].component.valueKey == Some(key))
    {
      KeysAt(n, suffix, token, i, j);
    }
  }

  /** The keys a node can keep in its props. */
  datatype PropKey = OfValue | OfPreservation | OfSelection

  function PropAt(n: Node, k: PropKey): Option<string> {
    if n.props.None? then None
    else
      var p := match k
        case OfValue => n.props.value.valueKey
        case OfPreservation => n.props.value.preservationKey
        case OfSelection => n.props.value.selectionKey;
      if p.Some? && p.value.Text? then Some(p.value.text) else None
  }

  /** Some listed node registers the key. */
  predicate RegisteredSomewhere(rows: seq<Row>, key: string) {
    exists m: nat :: m < |rows| && key in KeysOf(rows[m].component)
  }

  /** When the key in the props gets a copy of its own: it must carry no white space, and a value key is
      looked at only if the node has no key of its own, or a blank one or the same one, unless some node
      of the tree registers that key anyway. */
  predicate MovesAway(rows: seq<Row>, i: nat, k: PropKey)
    requires i < |rows| && PropAt(rows[i].component, k).Some?
  {
    var n, key := rows[i].component, PropAt(rows[i].component, k).value;
    Clean(key) &&
    (k.OfValue? ==>
       || n.valueKey.None? || Trim(n.valueKey.value) == "" || Trim(n.valueKey.value) == key
       || RegisteredSomewhere(rows, key))
  }

  lemma MovesAwayIsRegistered(n: Node, i: nat, k: PropKey)
    requires i < |Source(n)| && PropAt(Source(n)[i].component, k).Some?
    ensures MovesAway(Source(n), i, k) <==> PropAt(Source(n)[i].component, k).value in AllKeys(Preorder([n]))
  {
    FlattenedIsPreorder([n], None, 0);
    var rows, ns := Source(n), Preorder([n]);
    var key := PropAt(rows[i].component, k).value;
    assert Components(rows) == ns && ns[i] == rows[i].component;
    if key in AllKeys(ns) {
      var m :| m in ns && key in KeysOf(m);
      KeysAreClean(m, key);
      var j: nat :| j < |ns| && ns[j] == m;
      assert key in KeysOf(rows[j].component);
    }
    if MovesAway(rows, i, k) {
      assert key in KeysOf(rows[i].component) || RegisteredSomewhere(rows, key);
      var m: nat :| m < |rows| && key in KeysOf(rows[m].component);
      assert ns[m] in ns;
    }
  }

  /** What becomes of a key in the props, for every tree: its copy differs exactly when it moves away. In
      particular a second key, under an own key of another name that no node registers, stays shared. */
  lemma PropKeyMovesExactly(n: Node, suffix: string, token: nat -> string, i: nat, k: PropKey)
    requires i < |Source(n)| && PropAt(Source(n)[i].component, k).Some?
    ensures |Copy(n, suffix, token)| == |Source(n)|
    ensures PropAt(Copy(n, suffix, token)[i].component, k) != PropAt(Source(n)[i].component, k) <==> MovesAway(Source(n), i, k)
  {
    CopyRows(n, suffix, token);
    MovesAwayIsRegistered(n, i, k);
    CopiesAreMarked(PropAt(Source(n)[i].component, k).value, suffix);
  }

  /** The same for the keys in the props: shared in the clone exactly when in the source, and not shared
      across exactly when they differ or the key moves away. What is not a key is copied. */
  lemma DuplicateSeparatesPropKeys(n: Node, suffix: string, token: nat -> string, i: nat, j: nat, k: PropKey)
    requires i < |Source(n)| && j < |Source(n)|
    requires UnmarkedOption(PropAt(Source(n)[i].component, k), suffix)
    requires UnmarkedOption(PropAt(Source(n)[j].component, k), suffix)
    ensures |Copy(n, suffix, token)| == |Source(n)|
    ensures var s, c := Source(n), Copy(n, suffix, token);
            var a, b := PropAt(s[i].component, k), PropAt(s[j].component, k);
            && (PropAt(c[i].component, k) == PropAt(c[j].component, k) <==> a == b)
            && (a.Some? ==> (PropAt(c[i].component, k) != b <==> a != b || MovesAway(s, i, k)))
            && c[i].component.rest == s[i].component.rest && c[i].component.props.Some?
            && (s[i].component.props.Some? ==> c[i].component.props.value.others == s[i].component.props.value.others)
  {
    CopyRows(n, suffix, token);
    var ns := Preorder([n]);
    var a, b := PropAt(Source(n)[i].component, k), PropAt(Source(n)[j].component, k);
    assert ns[i] == Source(n)[i].component && ns[i] in ns;
    if a.Some? {
      MovesAwayIsRegistered(n, i, k);
      if b.Some? { KeysAreRenamed(AllKeys(ns), suffix, a.value, b.value); }
    }
  }

  // ------------------------------------------------------------ actions

  predicate UnmarkedValues(m: Option<map<string, string>>, suffix: string) {
    m.Some? ==> forall p :: p in m.value ==> Unmarked(m.value[p], suffix)
  }

  /** No state key named by the action is marked. */
  predicate UnmarkedAction(a: Action, suffix: string) {
    && UnmarkedOption(a.target, suffix) && UnmarkedOption(a.resultKey, suffix)
    && (a.includeFields.Some? ==>
          forall k: nat :: k < |a.includeFields.value| ==> Unmarked(a.includeFields.value[k], suffix))
    && UnmarkedValues(a.inputFromState, suffix) && UnmarkedValues(a.itemFromState, suffix)
    && UnmarkedValues(a.patchFromState, suffix) && UnmarkedValues(a.paramsFromState, suffix)
    && UnmarkedOption(a.idFromState, suffix) && UnmarkedOption(a.indexFromState, suffix)
  }

  /** The parameters filled from the key. */
  function ParamsOf(m: Option<map<string, string>>, key: string): set<string> {
    if m.Some? then set p | p in m.value && m.value[p] == key else {}
  }

  function FieldsOf(xs: Option<seq<string>>, key: string): set<nat> {
    if xs.Some? then set k: nat | k < |xs.value| && xs.value[k] == key else {}
  }

  /** The places where the action names the key: those a duplicate renames, and those it copies. */
  datatype Uses = Uses(renamed: Renamings, copied: Copies)

  datatype Renamings = Renamings(target: bool, resultKey: bool, fields: set<nat>, input: set<string>)

  datatype Copies = Copies(item: set<string>, patch: set<string>, params: set<string>, id: bool, index: bool)

  const NOWHERE := Copies({}, {}, {}, false, false)

  function RenamedPlaces(a: Action, key: string): Renamings {
    Renamings(a.target == Some(key), a.resultKey == Some(key), FieldsOf(a.includeFields, key), ParamsOf(a.inputFromState, key))
  }

  function CopiedPlaces(a: Action, key: string): Copies {
    Copies(ParamsOf(a.itemFromState, key), ParamsOf(a.patchFromState, key), ParamsOf(a.paramsFromState, key),
           a.idFromState == Some(key), a.indexFromState == Some(key))
  }

  function UsesOf(a: Action, key: string): Uses { Uses(RenamedPlaces(a, key), CopiedPlaces(a, key)) }

  lemma {:induction false} RenamedAllAt(names: map<string, string>, xs: seq<string>)
    ensures |RenamedAll(names, xs)| == |xs|
    ensures forall k: nat :: k < |xs| ==> RenamedAll(names, xs)[k] == Renamed(names, xs[k])
    decreases |xs|
  {
    if xs != [] { RenamedAllAt(names, xs[..|xs| - 1]); }
  }

  lemma FieldsFollow(keys: set<string>, suffix: string, xs: seq<string>, key: string)
    requires (forall k: nat :: k < |xs| ==> Unmarked(xs[k], suffix)) && Unmarked(key, suffix)
    ensures var names := KeyMap(keys, suffix);
            FieldsOf(Some(RenamedAll(names, xs)), Renamed(names, key)) == FieldsOf(Some(xs), key)
  {
    var names := KeyMap(keys, suffix);
    RenamedAllAt(names, xs);
    forall k: nat | k < |xs| ensures RenamedAll(names, xs)[k] == Renamed(names, key) <==> xs[k] == key {
      KeysAreRenamed(keys, suffix, xs[k], key);
    }
  }

  lemma ParamsFollow(keys: set<string>, suffix: string, input: map<string, string>, key: string)
    requires (forall p :: p in input ==> Unmarked(input[p], suffix)) && Unmarked(key, suffix)
    ensures var names := KeyMap(keys, suffix);
            ParamsOf(Some(map p | p in input :: Renamed(names, input[p])), Renamed(names, key)) == ParamsOf(Some(input), key)
  {
    var names := KeyMap(keys, suffix);
    forall p | p in input ensures Renamed(names, input[p]) == Renamed(names, key) <==> input[p] == key {
      KeysAreRenamed(keys, suffix, input[p], key);
    }
  }

  lemma OptionFollows(keys: set<string>, suffix: string, name: Option<string>, key: string)
    requires UnmarkedOption(name, suffix) && Unmarked(key, suffix)
    ensures var names := KeyMap(keys, suffix); RenamedOption(names, name) == Some(Renamed(names, key)) <==> name == Some(key)
  {
    if name.Some? { KeysAreRenamed(keys, suffix, name.value, key); }
  }

  /** A cloned action names the clone's key in exactly the renamed places where the action names the key. */
  lemma RenamedPlacesFollow(r: Renaming, keys: set<string>, suffix: string, a: Action, key: string)
    requires r.keys == KeyMap(keys, suffix) && UnmarkedAction(a, suffix) && Unmarked(key, suffix)
    ensures RenamedPlaces(ClonedAction(r, a), Renamed(r.keys, key)) == RenamedPlaces(a, key)
  {
    OptionFollows(keys, suffix, a.target, key);
    OptionFollows(keys, suffix, a.resultKey, key);
    if a.includeFields.Some? { FieldsFollow(keys, suffix, a.includeFields.value, key); }
    if a.inputFromState.Some? { ParamsFollow(keys, suffix, a.inputFromState.value, key); }
  }

  lemma ParamsStay(keys: set<string>, suffix: string, m: Option<map<string, string>>, key: string)
    requires UnmarkedValues(m, suffix) && Unmarked(key, suffix)
    ensures ParamsOf(m, Renamed(KeyMap(keys, suffix), key)) == (if key in keys then {} else ParamsOf(m, key))
  {
    CopiesAreMarked(key, suffix);
  }

  lemma OptionStays(keys: set<string>, suffix: string, name: Option<string>, key: string)
    requires UnmarkedOption(name, suffix) && Unmarked(key, suffix)
    ensures name == Some(Renamed(KeyMap(keys, suffix), key)) <==> key !in keys && name == Some(key)
  {
    CopiesAreMarked(key, suffix);
  }

  /** In the copied places it names the key itself, as before, and so nowhere a copy of it. */
  lemma CopiedPlacesStay(r: Renaming, keys: set<string>, suffix: string, a: Action, key: string)
    requires r.keys == KeyMap(keys, suffix) && UnmarkedAction(a, suffix) && Unmarked(key, suffix)
    ensures CopiedPlaces(ClonedAction(r, a), key) == CopiedPlaces(a, key)
    ensures CopiedPlaces(ClonedAction(r, a), Renamed(r.keys, key)) == if key in keys then NOWHERE else CopiedPlaces(a, key)
  {
    ParamsStay(keys, suffix, a.itemFromState, key);
    ParamsStay(keys, suffix, a.patchFromState, key);
    ParamsStay(keys, suffix, a.paramsFromState, key);
    OptionStays(keys, suffix, a.idFromState, key);
    OptionStays(keys, suffix, a.indexFromState, key);
  }

  /** A cloned action uses the clone's key exactly as the action uses the key, unless the key is renamed
      and the action names it in a place that is only copied. */
  lemma ActionFollowsItsKeysExactly(r: Renaming, keys: set<string>, suffix: string, a: Action, key: string)
    requires r.keys == KeyMap(keys, suffix) && UnmarkedAction(a, suffix) && Unmarked(key, suffix)
    ensures UsesOf(ClonedAction(r, a), Renamed(r.keys, key)) == UsesOf(a, key) <==> key !in keys || CopiedPlaces(a, key) == NOWHERE
  {
    RenamedPlacesFollow(r, keys, suffix, a, key);
    CopiedPlacesStay(r, keys, suffix, a, key);
  }

  lemma {:induction false} ClonedActionsAt(r: Renaming, actions: seq<Action>)
    ensures |ClonedActions(r, actions)| == |actions|
    ensures forall k: nat :: k < |actions| ==> ClonedActions(r, actions)[k] == ClonedAction(r, actions[k])
    decreases |actions|
  {
    if actions != [] { ClonedActionsAt(r, actions[..|actions| - 1]); }
  }

  /** `id` is not one of the drawn ids. */
  ghost predicate NotDrawn(ns: seq<Node>, suffix: string, token: nat -> string, id: Option<string>) {
    forall q: nat :: q < |ns| ==> id != Some(NewId(ns[q].kind, suffix, token(q)))
  }

  /** The keys that a node can be bound to. */
  datatype NodeKey = Own | InProps(k: PropKey)

  function KeyAt(n: Node, w: NodeKey): Option<string> { if w.Own? then n.valueKey else PropAt(n, w.k) }

  /** The copy of the node is bound to another key. */
  predicate KeyMoves(rows: seq<Row>, j: nat, w: NodeKey)
    requires j < |rows| && KeyAt(rows[j].component, w).Some?
  {
    if w.Own? then Clean(rows[j].component.valueKey.value) else MovesAway(rows, j, w.k)
  }

  lemma KeyOfClone(r: Renaming, n: Node, w: NodeKey)
    ensures KeyAt(ClonedNode(r, n), w) == RenamedOption(r.keys, KeyAt(n, w))
  {
  }

  lemma KeyMovesIsRegistered(n: Node, suffix: string, token: nat -> string, j: nat, w: NodeKey)
    requires j < |Source(n)| && KeyAt(Source(n)[j].component, w).Some?
    ensures |Copy(n, suffix, token)| == |Source(n)|
    ensures KeyMoves(Source(n), j, w) <==> KeyAt(Source(n)[j].component, w).value in AllKeys(Preorder([n]))
    ensures KeyAt(Copy(n, suffix, token)[j].component, w)
         == Some(Renamed(RenamingFor(n, suffix, token).keys, KeyAt(Source(n)[j].component, w).value))
  {
    CopyRows(n, suffix, token);
    var ns := Preorder([n]);
    assert ns[j] == Source(n)[j].component && ns[j] in ns;
    if w.Own? { RegisteredKeys(ns, ns[j]); } else { MovesAwayIsRegistered(n, j, w.k); }
    assert Copy(n, suffix, token)[j] == ClonedRow(RenamingFor(n, suffix, token), Source(n)[j]);
    KeyOfClone(RenamingFor(n, suffix, token), ns[j], w);
  }

  /** `a'` names the key and the id of `n'` in exactly the places where `a` names those of `n`. */
  predicate SameWiring(a: Action, n: Node, a': Action, n': Node, w: NodeKey) {
    && KeyAt(n, w).Some? == KeyAt(n', w).Some?
    && (KeyAt(n, w).Some? ==> UsesOf(a', KeyAt(n', w).value) == UsesOf(a, KeyAt(n, w).value))
    && (a'.componentId == Some(n'.id) <==> a.componentId == Some(n.id))
  }

  /** In the clone, an action of node `i` points at the id of node `j` exactly when it did, and reaches the
      input of node `j` in exactly the same ways as in the source, unless `j` is given a copy of its key
      and the action names that key to fill an item, a patch or parameters, or to find an item. There it
      goes on naming the key of the source. */
  lemma DuplicateKeepsItsWiring(n: Node, suffix: string, token: nat -> string, i: nat, j: nat, k: nat, w: NodeKey)
    requires FreshIds(Preorder([n]), suffix, token)
    requires i < |Source(n)| && j < |Source(n)|
    requires UnmarkedOption(KeyAt(Source(n)[j].component, w), suffix)
    requires Source(n)[i].component.actions.Some? && k < |Source(n)[i].component.actions.value|
    requires UnmarkedAction(Source(n)[i].component.actions.value[k], suffix)
    requires NotDrawn(Preorder([n]), suffix, token, Source(n)[i].component.actions.value[k].componentId)
    ensures |Copy(n, suffix, token)| == |Source(n)|
    ensures var s, c := Source(n)[i].component, Copy(n, suffix, token)[i].component;
            c.actions.Some? && |c.actions.value| == |s.actions.value| &&
            var a, a', m, m' := s.actions.value[k], c.actions.value[k], Source(n)[j].component, Copy(n, suffix, token)[j].component;
            var key := KeyAt(m, w);
            && (a'.componentId == Some(m'.id) <==> a.componentId == Some(m.id))
            && (SameWiring(a, m, a', m', w) <==>
                  key.None? || !KeyMoves(Source(n), j, w) || CopiedPlaces(a, key.value) == NOWHERE)
            && (key.Some? ==> CopiedPlaces(a', key.value) == CopiedPlaces(a, key.value))
  {
    CopyRows(n, suffix, token);
    var s, c := Source(n)[i].component, Copy(n, suffix, token)[i].component;
    var r, ns := RenamingFor(n, suffix, token), Preorder([n]);
    assert c == ClonedNode(r, s) && Copy(n, suffix, token)[j].component == ClonedNode(r, Source(n)[j].component);
    ClonedActionsAt(r, s.actions.value);
    if KeyAt(Source(n)[j].component, w).Some? { KeyMovesIsRegistered(n, suffix, token, j, w); }
    assert ns[j] == Source(n)[j].component;
    WiringOfClones(ns, suffix, token, r, s.actions.value[k], j, w);
  }

  lemma WiringOfClones(ns: seq<Node>, suffix: string, token: nat -> string, r: Renaming, a: Action, j: nat, w: NodeKey)
    requires FreshIds(ns, suffix, token) && j < |ns| && NotDrawn(ns, suffix, token, a.componentId)
    requires r == Renaming(IdsAfter(map[], ns, suffix, token, 0), KeyMap(AllKeys(ns), suffix))
    requires UnmarkedOption(KeyAt(ns[j], w), suffix) && UnmarkedAction(a, suffix)
    ensures var a', m, m' := ClonedAction(r, a), ns[j], ClonedNode(r, ns[j]);
            var key := KeyAt(m, w);
            && (a'.componentId == Some(m'.id) <==> a.componentId == Some(m.id))
            && (SameWiring(a, m, a', m', w) <==> key.None? || key.value !in AllKeys(ns) || CopiedPlaces(a, key.value) == NOWHERE)
            && (key.Some? ==> CopiedPlaces(a', key.value) == CopiedPlaces(a, key.value))
  {
    var key := KeyAt(ns[j], w);
    KeyOfClone(r, ns[j], w);
    if key.Some? {
      ActionFollowsItsKeysExactly(r, AllKeys(ns), suffix, a, key.value);
      CopiedPlacesStay(r, AllKeys(ns), suffix, a, key.value);
    }
    if a.componentId.Some? {
      ComponentIdFollows(ns, suffix, token, a.componentId.value, j);
    }
  }

  lemma ComponentIdFollows(ns: seq<Node>, suffix: string, token: nat -> string, id: string, j: nat)
    requires FreshIds(ns, suffix, token) && j < |ns|
    requires NotDrawn(ns, suffix, token, Some(id))
    ensures var ids := IdsAfter(map[], ns, suffix, token, 0); Renamed(ids, id) == Renamed(ids, ns[j].id) <==> id == ns[j].id
  {
    var ids := IdsAfter(map[], ns, suffix, token, 0);
    IdsCover(map[], ns, suffix, token, 0);
    var i := IdsOrigin(map[], ns, suffix, token, 0, ns[j].id);
    if id in ids {
      var k := IdsOrigin(map[], ns, suffix, token, 0, id);
      IdsAreRenamed(ns, suffix, token, ns[k.value], ns[j]);
    }
  }

  /** A form with one input bound to `key` and one button that appends an item filled from it. */
  function Form(key: string, list: string, field: string): Node {
    var append := Action(None, Some(list), None, None, None, Some(map[field := key]), None, None, None, None, Primitive(0));
    Node("form", "container", None,
         Listed([Node("in", "input", None, Absent, None, Some(key), Primitive(0)),
                 Node("add", "button", None, Absent, Some([append]), None, Primitive(0))]), None, None, Primitive(0))
  }

  lemma FormRows(key: string, list: string, field: string)
    ensures var n := Form(key, list, field);
            Source(n) == [Row(n, None, 0), Row(Kids(n)[0], Some("form"), 0), Row(Kids(n)[1], Some("form"), 1)]
  {
    var n := Form(key, list, field);
    var input, add := Kids(n)[0], Kids(n)[1];
    FlattenedStep([n], None, 0);
    FlattenedStep([input, add], Some("form"), 0);
    FlattenedStep([add], Some("form"), 1);
    assert [n][1..] == [] && [input, add][1..] == [add] && [add][1..] == [];
  }

  /** It happens to every such form whose key is trimmed and not empty: the input of the duplicate is bound
      to a copy of the key, and its button goes on appending the value of the source. */
  lemma CopiedButtonReadsTheSource(key: string, list: string, field: string, suffix: string, token: nat -> string)
    requires Clean(key)
    ensures var c := Copy(Form(key, list, field), suffix, token);
      && |c| == 3 && c[1].component.valueKey == Some(CopyOf(key, suffix)) && CopyOf(key, suffix) != key
      && c[2].component.actions.Some? && |c[2].component.actions.value| == 1
      && c[2].component.actions.value[0].itemFromState == Some(map[field := key])
  {
    var n := Form(key, list, field);
    FormRows(key, list, field);
    CopyRows(n, suffix, token);
    var ns := Preorder([n]);
    assert ns[1] == Source(n)[1].component && ns[1] in ns;
    RegisteredKeys(ns, ns[1]);
    CopiesAreMarked(key, suffix);
    ClonedActionsAt(RenamingFor(n, suffix, token), Source(n)[2].component.actions.value);
  }
}
