/** Carets as offsets into the text of an editable element (src/lib/preservation.ts). */
module CaretOffsets {
  import opened Common

  /** A text node, by its length in code units, or any other node. */
  datatype Node = Text(length: nat) | Element(children: seq<Node>)

  /** A node of the tree is named by its child indices from the root. */
  type Path = seq<nat>

  datatype Point = Point(path: Path, offset: int)

  predicate InTree(n: Node, path: Path)
    decreases |path|
  {
    path == [] || (n.Element? && path[0] < |n.children| && InTree(n.children[path[0]], path[1..]))
  }

  function NodeAt(n: Node, path: Path): Node
    requires InTree(n, path)
    decreases |path|
  {
    if path == [] then n else NodeAt(n.children[path[0]], path[1..])
  }

  function Clamp(x: int, hi: nat): nat { if x < 0 then 0 else if x > hi then hi else x }

  /** The nearest number in range. */
  lemma ClampIs(x: int, hi: nat)
    ensures 0 <= x <= hi ==> Clamp(x, hi) == x
    ensures x < 0 ==> Clamp(x, hi) == 0
    ensures x > hi ==> Clamp(x, hi) == hi
  {
  }

  // ------------------------------------------------------------ how much text there is, and before a point

  function TextLength(n: Node): nat
    decreases n, 0
  {
    match n
    case Text(length) => length
    case Element(children) => TextLengths(children)
  }

  function TextLengths(ns: seq<Node>): nat
    decreases ns, 1
  {
    if ns == [] then 0 else TextLength(ns[0]) + TextLengths(ns[1..])
  }

  /** The text of the tree that lies before the boundary point: inside a text node `offset` counts code
      units, inside another node it counts children. */
  function TextBefore(n: Node, path: Path, offset: int): nat
    requires InTree(n, path)
    decreases |path|
  {
    if path != [] then
      TextLengths(n.children[..path[0]]) + TextBefore(n.children[path[0]], path[1..], offset)
    else
      match n
      case Text(length) => Clamp(offset, length)
      case Element(children) => TextLengths(children[..Clamp(offset, |children|)])
  }

  // ------------------------------------------------------------ the tree walker

  datatype Leaf = Leaf(path: Path, length: nat)

  /** The text nodes of a tree rooted at `base`, in document order. */
  function Leaves(n: Node, base: Path): seq<Leaf>
    decreases n, 0
  {
    match n
    case Text(length) => [Leaf(base, length)]
    case Element(children) => LeavesFrom(children, base, 0)
  }

  function LeavesFrom(ns: seq<Node>, base: Path, k: nat): seq<Leaf>
    decreases ns, 1
  {
    if ns == [] then [] else Leaves(ns[0], base + [k]) + LeavesFrom(ns[1..], base, k + 1)
  }

  /** What a walker that shows text nodes visits below `root`; it never visits `root` itself. */
  function Walk(root: Node): seq<Leaf> { if root.Text? then [] else Leaves(root, []) }

  function Sum(ls: seq<Leaf>): nat { if ls == [] then 0 else Sum(ls[..|ls| - 1]) + ls[|ls| - 1].length }

  /** `q` comes after `p` in document order; descendants come after their ancestors. */
  predicate Follows(p: Path, q: Path) {
    if p == [] then q != []
    else if q == [] then false
    else if p[0] == q[0] then Follows(p[1..], q[1..])
    else p[0] < q[0]
  }

  /** A caret in `p` does not count the text of `q`: `q` lies inside `p` or after it. */
  predicate Stops(p: Path, q: Path) { p <= q || Follows(p, q) }

  // ------------------------------------------------------------ the conversions

  method SubtreeTextLength(n: Node) returns (total: nat)
    ensures total == TextLength(n)
  {
    if n.Text? { return n.length; }
    total := 0;
    var i := 0;
    while i < |n.children|
      invariant i <= |n.children| && total + TextLengths(n.children[i..]) == TextLengths(n.children)
    {
      var length := SubtreeTextLength(n.children[i]);
      assert n.children[i..][1..] == n.children[i + 1..];
      total := total + length;
      i := i + 1;
    }
  }

  method OffsetInText(root: Node, p: Path, offset: int) returns (r: Option<nat>)
    requires InTree(root, p) && NodeAt(root, p).Text?
    ensures r == if root.Element? then Some(TextBefore(root, p, offset)) else None
  {
    var texts, total, i := Walk(root), 0, 0;
    while i < |texts|
      invariant i <= |texts| && total == Sum(texts[..i])
      invariant forall k: nat :: k < i ==> texts[k].path != p
    {
      if texts[i].path == p {
        ghost var at := LeafOffset(root, [], i, offset);
        return Some(total + Clamp(offset, texts[i].length));
      }
      SumSplit(texts, i);
      total := total + texts[i].length;
      i := i + 1;
    }
    if root.Element? { TextIsWalked(root, p); }
    r := None;
  }

  method OffsetInElement(root: Node, p: Path, offset: int) returns (total: nat)
    requires InTree(root, p) && NodeAt(root, p).Element?
    ensures total == TextBefore(root, p, offset)
  {
    var texts, i := Walk(root), 0;
    total := 0;
    while i < |texts| && !Stops(p, texts[i].path)
      invariant i <= |texts| && total == Sum(texts[..i])
      invariant forall k: nat :: k < i ==> !Stops(p, texts[k].path)
    {
      SumSplit(texts, i);
      total := total + texts[i].length;
      i := i + 1;
    }
    StopsAfterBefore(root, p, i);
    TextBeforeChildren(root, p, offset);
    var children := NodeAt(root, p).children;
    var limit, c := Clamp(offset, |children|), 0;
    assert children[..0] == [];
    while c < limit
      invariant c <= limit && total == TextBefore(root, p, 0) + TextLengths(children[..c])
    {
      var length := SubtreeTextLength(children[c]);
      LengthsExtend(children, c);
      total := total + length;
      c := c + 1;
    }
  }

  /** The offset is the amount of text before the caret, for every caret in a root that is not itself
      a text node; a caret elsewhere has none. `path` is absent for a node outside the tree. */
  method TextOffsetInRoot(root: Node, path: Option<Path>, offset: int) returns (r: Option<nat>)
    ensures r == if path.Some? && InTree(root, path.value) && root.Element?
                 then Some(TextBefore(root, path.value, offset)) else None
  {
    if path.None? || !InTree(root, path.value) { return None; }
    if NodeAt(root, path.value).Text? {
      r := OffsetInText(root, path.value, offset);
    } else {
      var total := OffsetInElement(root, path.value, offset);
      r := Some(total);
    }
  }

  /** A caret for a text offset: in the first text node that reaches it, at the end of the last one if
      the text is too short, and at the root if there is no text. */
  method PointFromTextOffset(root: Node, offset: int) returns (point: Point)
    ensures InTree(root, point.path)
    ensures root.Text? || Walk(root) == [] ==> point == Point([], 0)
    ensures Walk(root) != [] ==> NodeAt(root, point.path).Text? && 0 <= point.offset <= NodeAt(root, point.path).length
    ensures root.Element? ==> TextBefore(root, point.path, point.offset) == Clamp(offset, TextLength(root))
  {
    var texts, remaining, i := Walk(root), Max(0, offset), 0;
    while i < |texts|
      invariant i <= |texts| && remaining >= 0 && remaining == Max(0, offset) - Sum(texts[..i])
      invariant i > 0 ==> remaining > 0
    {
      SumSplit(texts, i);
      if remaining <= texts[i].length {
        ghost var at := LeafOffset(root, [], i, remaining);
        SumWithin(texts, i + 1);
        WalkTotals(root);
        return Point(texts[i].path, remaining);
      }
      remaining := remaining - texts[i].length;
      i := i + 1;
    }
    WalkTotals(root);
    assert texts[..i] == texts;
    if |texts| > 0 {
      var last := texts[|texts| - 1];
      ghost var at := LeafOffset(root, [], |texts| - 1, last.length);
      return Point(last.path, last.length);
    }
    point := Point([], 0);
  }

  /** Restoring a caret from a text offset and reading it back gives the offset, cut to the text. */
  method OffsetOfPointFromOffset(root: Node, offset: int) returns (r: Option<nat>)
    ensures r == if root.Element? then Some(Clamp(offset, TextLength(root))) else None
    ensures root.Element? && 0 <= offset <= TextLength(root) ==> r == Some(offset)
  {
    var point := PointFromTextOffset(root, offset);
    r := TextOffsetInRoot(root, Some(point.path), point.offset);
  }

  // Lemmas about lists of leaves

  lemma SumSplit(ls: seq<Leaf>, i: nat)
    requires i < |ls|
    ensures Sum(ls[..i + 1]) == Sum(ls[..i]) + ls[i].length
  {
    assert ls[..i + 1][..i] == ls[..i];
  }

  lemma {:induction false} SumConcat(a: seq<Leaf>, b: seq<Leaf>)
    ensures Sum(a + b) == Sum(a) + Sum(b)
    decreases |b|
  {
    if b == [] {
      assert a + b == a;
    } else {
      assert (a + b)[..|a + b| - 1] == a + b[..|b| - 1];
      SumConcat(a, b[..|b| - 1]);
    }
  }

  lemma SumWithin(ls: seq<Leaf>, i: nat)
    requires i <= |ls|
    ensures Sum(ls[..i]) <= Sum(ls)
  {
    SumConcat(ls[..i], ls[i..]);
    assert ls == ls[..i] + ls[i..];
  }

  lemma {:induction false} LengthsExtend(ns: seq<Node>, i: nat)
    requires i < |ns|
    ensures TextLengths(ns[..i + 1]) == TextLengths(ns[..i]) + TextLength(ns[i])
    decreases i
  {
    if i > 0 {
      assert ns[..i + 1][1..] == ns[1..][..i] && ns[..i][1..] == ns[1..][..i - 1];
      LengthsExtend(ns[1..], i - 1);
    }
  }

  lemma {:induction false} LeavesTotal(n: Node, base: Path)
    ensures Sum(Leaves(n, base)) == TextLength(n)
    decreases n, 0
  {
    match n
    case Text(length) => assert [Leaf(base, length)][..0] == [];
    case Element(children) => LeavesFromTotal(children, base, 0);
  }

  lemma {:induction false} LeavesFromTotal(ns: seq<Node>, base: Path, k: nat)
    ensures Sum(LeavesFrom(ns, base, k)) == TextLengths(ns)
    decreases ns, 1
  {
    if ns != [] {
      LeavesTotal(ns[0], base + [k]);
      LeavesFromTotal(ns[1..], base, k + 1);
      SumConcat(Leaves(ns[0], base + [k]), LeavesFrom(ns[1..], base, k + 1));
    }
  }

  lemma WalkTotals(root: Node)
    ensures root.Element? ==> Sum(Walk(root)) == TextLength(root)
  {
    LeavesTotal(root, []);
  }

  // A leaf of the list as a caret

  /** Leaf `i` is the text node at `rest` below `base`, and the leaves before it are the text before it. */
  ghost predicate IsLeaf(n: Node, base: Path, i: nat, rest: Path, offset: int) {
    && i < |Leaves(n, base)| && Leaves(n, base)[i].path == base + rest
    && InTree(n, rest) && NodeAt(n, rest) == Text(Leaves(n, base)[i].length)
    && TextBefore(n, rest, offset) == Sum(Leaves(n, base)[..i]) + Clamp(offset, Leaves(n, base)[i].length)
  }

  lemma {:induction false} LeafOffset(n: Node, base: Path, i: nat, offset: int) returns (rest: Path)
    requires i < |Leaves(n, base)|
    ensures IsLeaf(n, base, i, rest, offset)
    ensures base == [] ==> Leaves(n, base)[i].path == rest
    decreases n, 0
  {
    match n
    case Text(length) => rest := []; assert base + rest == base;
    case Element(children) =>
      var c, j := LeafOffsetFrom(children, base, 0, i, offset);
      var below := LeafOffset(children[c], base + [c], j, offset);
      rest := [c] + below;
      assert base + [c] + below == base + rest && rest[1..] == below;
  }

  /** Which child leaf `i` belongs to, and its index there. */
  lemma {:induction false} LeafOffsetFrom(ns: seq<Node>, base: Path, k: nat, i: nat, offset: int) returns (c: nat, j: nat)
    requires i < |LeavesFrom(ns, base, k)|
    ensures c < |ns| && j < |Leaves(ns[c], base + [k + c])|
    ensures LeavesFrom(ns, base, k)[i] == Leaves(ns[c], base + [k + c])[j]
    ensures Sum(LeavesFrom(ns, base, k)[..i]) == TextLengths(ns[..c]) + Sum(Leaves(ns[c], base + [k + c])[..j])
    decreases |ns|
  {
    var first, others := Leaves(ns[0], base + [k]), LeavesFrom(ns[1..], base, k + 1);
    if i < |first| {
      c, j := 0, i;
      assert (first + others)[..i] == first[..i];
    } else {
      c, j := LeafOffsetFrom(ns[1..], base, k + 1, i - |first|, offset);
      c := c + 1;
      assert (first + others)[..i] == first + others[..i - |first|];
      SumConcat(first, others[..i - |first|]);
      LeavesTotal(ns[0], base + [k]);
      assert ns[..c][1..] == ns[1..][..c - 1];
    }
  }

  // The leaves around a node

  /** The leaves before the node at `rest`, below `base`. */
  function Earlier(n: Node, base: Path, rest: Path): seq<Leaf>
    requires InTree(n, rest)
    decreases |rest|
  {
    if rest == [] then []
    else LeavesFrom(n.children[..rest[0]], base, 0) + Earlier(n.children[rest[0]], base + [rest[0]], rest[1..])
  }

  function Later(n: Node, base: Path, rest: Path): seq<Leaf>
    requires InTree(n, rest)
    decreases |rest|
  {
    if rest == [] then []
    else Later(n.children[rest[0]], base + [rest[0]], rest[1..])
         + LeavesFrom(n.children[rest[0] + 1..], base, rest[0] + 1)
  }

  lemma {:induction false} LeavesFromConcat(a: seq<Node>, b: seq<Node>, base: Path, k: nat)
    ensures LeavesFrom(a + b, base, k) == LeavesFrom(a, base, k) + LeavesFrom(b, base, k + |a|)
    decreases |a|
  {
    if a == [] {
      assert a + b == b;
    } else {
      assert (a + b)[1..] == a[1..] + b;
      LeavesFromConcat(a[1..], b, base, k + 1);
    }
  }

  lemma LeavesAround(ns: seq<Node>, base: Path, c: nat)
    requires c < |ns|
    ensures LeavesFrom(ns, base, 0)
         == LeavesFrom(ns[..c], base, 0) + (Leaves(ns[c], base + [c]) + LeavesFrom(ns[c + 1..], base, c + 1))
  {
    assert ns == ns[..c] + ns[c..] && ns[c..][1..] == ns[c + 1..];
    LeavesFromConcat(ns[..c], ns[c..], base, 0);
  }

  /** The leaves are those before the node, those in it and those after it. */
  lemma {:induction false} Split(n: Node, base: Path, rest: Path)
    requires InTree(n, rest)
    ensures Leaves(n, base) == Earlier(n, base, rest) + Leaves(NodeAt(n, rest), base + rest) + Later(n, base, rest)
    decreases |rest|
  {
    if rest == [] {
      assert base + rest == base;
    } else {
      var c := rest[0];
      Split(n.children[c], base + [c], rest[1..]);
      assert base + [c] + rest[1..] == base + rest;
      LeavesAround(n.children, base, c);
    }
  }

  lemma TextIsWalked(root: Node, path: Path)
    requires root.Element? && InTree(root, path) && NodeAt(root, path).Text?
    ensures exists k: nat :: k < |Walk(root)| && Walk(root)[k].path == path
  {
    Split(root, [], path);
    assert [] + path == path && Walk(root)[|Earlier(root, [], path)|].path == path;
  }

  lemma {:induction false} EarlierTotal(n: Node, base: Path, rest: Path)
    requires InTree(n, rest)
    ensures Sum(Earlier(n, base, rest)) == TextBefore(n, rest, 0)
    decreases |rest|
  {
    if rest == [] {
      assert n.Element? ==> n.children[..0] == [];
    } else {
      var c := rest[0];
      EarlierTotal(n.children[c], base + [c], rest[1..]);
      SumConcat(LeavesFrom(n.children[..c], base, 0), Earlier(n.children[c], base + [c], rest[1..]));
      LeavesFromTotal(n.children[..c], base, 0);
    }
  }

  lemma {:induction false} LeavesUnder(n: Node, base: Path)
    ensures forall l :: l in Leaves(n, base) ==> base <= l.path
    decreases n, 0
  {
    match n
    case Text(_) =>
    case Element(children) => LeavesFromUnder(children, base, 0);
  }

  lemma {:induction false} LeavesFromUnder(ns: seq<Node>, base: Path, k: nat)
    ensures forall l :: l in LeavesFrom(ns, base, k) ==>
              base < l.path && k <= l.path[|base|] < k + |ns|
    decreases ns, 1
  {
    if ns != [] {
      LeavesUnder(ns[0], base + [k]);
      LeavesFromUnder(ns[1..], base, k + 1);
    }
  }

  lemma {:induction false} FollowsBelow(base: Path, p: Path, q: Path)
    ensures Follows(base + p, base + q) == Follows(p, q)
    decreases |base|
  {
    if base == [] {
      assert base + p == p && base + q == q;
    } else {
      assert (base + p)[1..] == base[1..] + p && (base + q)[1..] == base[1..] + q;
      FollowsBelow(base[1..], p, q);
    }
  }

  /** Two paths that part at `base`. */
  lemma Parted(base: Path, p: Path, q: Path)
    requires base < p && base < q && p[|base|] != q[|base|]
    ensures !(p <= q) && (Follows(p, q) <==> p[|base|] < q[|base|])
  {
    FollowsBelow(base, p[|base|..], q[|base|..]);
    assert base + p[|base|..] == p && base + q[|base|..] == q;
  }

  lemma {:induction false} EarlierDoNotStop(n: Node, base: Path, rest: Path)
    requires InTree(n, rest)
    ensures forall l :: l in Earlier(n, base, rest) ==> !Stops(base + rest, l.path)
    decreases |rest|
  {
    if rest != [] {
      var c := rest[0];
      EarlierDoNotStop(n.children[c], base + [c], rest[1..]);
      assert base + [c] + rest[1..] == base + rest;
      LeavesFromUnder(n.children[..c], base, 0);
      forall l | l in LeavesFrom(n.children[..c], base, 0) ensures !Stops(base + rest, l.path) {
        Parted(base, base + rest, l.path);
      }
    }
  }

  lemma {:induction false} LaterStop(n: Node, base: Path, rest: Path)
    requires InTree(n, rest)
    ensures forall l :: l in Later(n, base, rest) ==> Stops(base + rest, l.path)
    decreases |rest|
  {
    if rest != [] {
      var c := rest[0];
      LaterStop(n.children[c], base + [c], rest[1..]);
      assert base + [c] + rest[1..] == base + rest;
      LeavesFromUnder(n.children[c + 1..], base, c + 1);
      forall l | l in LeavesFrom(n.children[c + 1..], base, c + 1) ensures Stops(base + rest, l.path) {
        Parted(base, base + rest, l.path);
      }
    }
  }

  /** A walk that stops at the first leaf inside or after the node has seen the text before it. */
  lemma StopsAfterBefore(root: Node, path: Path, i: nat)
    requires root.Element? && InTree(root, path) && i <= |Walk(root)|
    requires forall k: nat :: k < i ==> !Stops(path, Walk(root)[k].path)
    requires i < |Walk(root)| ==> Stops(path, Walk(root)[i].path)
    ensures Sum(Walk(root)[..i]) == TextBefore(root, path, 0)
  {
    var texts, earlier := Walk(root), Earlier(root, [], path);
    var inside, later := Leaves(NodeAt(root, path), path), Later(root, [], path);
    assert [] + path == path;
    Split(root, [], path);
    EarlierTotal(root, [], path);
    EarlierDoNotStop(root, [], path);
    LaterStop(root, [], path);
    LeavesUnder(NodeAt(root, path), path);
    assert texts == earlier + inside + later;
    assert forall k: nat :: k < |earlier| ==> texts[k] == earlier[k] && earlier[k] in earlier;
    assert forall k: nat :: |earlier| <= k < |texts| ==> texts[k] in inside || texts[k] in later;
    assert |earlier| < |texts| ==> Stops(path, texts[|earlier|].path);
    assert i == |earlier|;
    assert texts[..i] == earlier;
  }

  lemma {:induction false} TextBeforeChildren(n: Node, path: Path, offset: int)
    requires InTree(n, path) && NodeAt(n, path).Element?
    ensures var children := NodeAt(n, path).children;
            TextBefore(n, path, offset) == TextBefore(n, path, 0) + TextLengths(children[..Clamp(offset, |children|)])
    decreases |path|
  {
    if path == [] {
      assert n.children[..0] == [];
    } else {
      TextBeforeChildren(n.children[path[0]], path[1..], offset);
    }
  }
}
