/** Which objects an action writes in place while it fills another one from state (src/lib/actions.ts). */
module ActionObjects {
  import opened Common
  import opened DottedPaths
  import opened Actions

  // ------------------------------------------------------------ stores and definitions

  predicate KeysValid(keys: Fields, heap: Heap) {
    forall k :: k in keys ==> !keys[k].Obj? && (keys[k].Ref? ==> keys[k].addr in heap)
  }

  /** Objects under state keys have a record, and the next address is free. */
  predicate Valid(s: Store) { KeysValid(s.keys, s.heap) && forall a :: a in s.heap ==> a < s.next }

  /** An object written out in an action's definition: no path leads to an object of the state. */
  ghost predicate Literal(o: Fields) { forall q :: q != [] ==> !GetAt(o, q).Ref? }

  function SeedOf(a: Action): Fields {
    match a
    case AppendItem(_, item, _) => if item.Obj? then item.fields else map[]
    case UpdateItem(_, _, patch, _) => if patch.Some? then patch.value else map[]
    case _ => map[]
  }

  function EntriesOf(a: Action): Option<Entries> {
    match a
    case AppendItem(_, _, from) => from
    case UpdateItem(_, _, _, from) => from
    case _ => None
  }

  ghost predicate Defined(a: Action) {
    Literal(SeedOf(a)) && (a.SetValue? || a.Reset? ==> !a.value.Ref?)
  }

  predicate ObjectsKept(heap: Heap, heap': Heap) { forall a :: a in heap ==> a in heap' && heap'[a] == heap[a] }

  // ------------------------------------------------------------ the condition

  function Pieces(entries: Entries, i: nat): (p: seq<string>)
    requires i < |entries|
    ensures p != []
  {
    Segments(entries[i].0)
  }

  function ValueAt(keys: Fields, entries: Entries, i: nat): Json
    requires i < |entries|
  {
    Get(keys, entries[i].1)
  }

  /** The path of entry `j` properly extends that of entry `i`. */
  predicate Above(entries: Entries, i: nat, j: nat)
    requires i < |entries| && j < |entries|
  {
    Pieces(entries, i) < Pieces(entries, j)
  }

  /** The last earlier entry whose path this one extends stored an object of the state. */
  predicate Enters(keys: Fields, entries: Entries, j: nat)
    requires j < |entries|
  {
    exists i: nat :: i < j && Above(entries, i, j) && ValueAt(keys, entries, i).Ref?
                     && forall m: nat :: i < m < j ==> !Above(entries, m, j)
  }

  /** Entry `j` is reached and its key read. */
  predicate Reached(keys: Fields, h: Host, heap: Heap, o: Fields, entries: Entries, j: nat)
    requires j < |entries|
  {
    Filled(keys, h, heap, o, entries[..j]).1.Ok? && Readable(h.authority, entries[j].1) && ValidPath(entries[j].0)
  }

  /** No entry that is reached writes below an object that an earlier one stored. */
  predicate Separate(keys: Fields, h: Host, heap: Heap, o: Fields, entries: Entries) {
    forall j: nat :: j < |entries| && Reached(keys, h, heap, o, entries, j) ==> !Enters(keys, entries, j)
  }

  // ------------------------------------------------------------ where the objects of the state are in the filled one

  /** Entry `i` stored an object at `q` and none of the entries since, up to `n`, replaced it. */
  predicate Stored(keys: Fields, entries: Entries, n: nat, i: nat, q: seq<string>)
    requires i < n <= |entries|
  {
    Pieces(entries, i) == q && ValueAt(keys, entries, i).Ref? && forall m: nat :: i < m < n ==> !(Pieces(entries, m) <= q)
  }

  /** An object of the state that the first `n` entries stored is at `q`. */
  predicate HeldAt(keys: Fields, entries: Entries, n: nat, q: seq<string>)
    requires n <= |entries|
  {
    exists i: nat :: i < n && Stored(keys, entries, n, i, q)
  }

  /** The objects of the state within `o` are exactly those that the first `n` entries stored. */
  ghost predicate Traces(keys: Fields, entries: Entries, n: nat, o: Fields)
    requires n <= |entries|
  {
    forall q :: q != [] ==> (GetAt(o, q).Ref? <==> HeldAt(keys, entries, n, q))
  }

  ghost predicate RefsValid(o: Fields, heap: Heap) { forall q :: q != [] && GetAt(o, q).Ref? ==> GetAt(o, q).addr in heap }

  /** What each path reads after a write of anything but a new object. */
  lemma {:induction false} GetAfterSet(o: Fields, p: seq<string>, v: Json, q: seq<string>)
    requires p != [] && q != [] && SetAt(o, p, v).0 && !v.Obj?
    ensures var now := GetAt(SetAt(o, p, v).1, q);
            && (q == p ==> now == v)
            && (p < q ==> now == Undefined)
            && (q < p ==> now.Obj?)
            && (!(p <= q) && !(q <= p) ==> now == GetAt(o, q))
    decreases |p|
  {
    if !(p <= q) && !(q <= p) {
      OthersKept(o, p, v, q);
    } else if |p| > 1 && |q| > 1 {
      var existing := Get(o, p[0]);
      assert p == [p[0]] + p[1..] && q == [q[0]] + q[1..] && p[0] == q[0];
      GetAfterSet(if existing.Obj? then existing.fields else map[], p[1..], v, q[1..]);
      assert (q < p <==> q[1..] < p[1..]) && (p < q <==> p[1..] < q[1..]);
    }
  }

  predicate RefAbove(o: Fields, p: seq<string>) { exists k: nat :: 0 < k < |p| && GetAt(o, p[..k]).Ref? }

  lemma {:induction false} CrossingIsRefAbove(heap: Heap, o: Fields, p: seq<string>)
    requires p != [] && RefsValid(o, heap)
    ensures Crossing(heap, o, p).Some? <==> RefAbove(o, p)
    decreases |p|
  {
    var v := Get(o, p[0]);
    if |p| > 1 {
      assert p[..1] == [p[0]] && GetAt(o, p[..1]) == v;
      if v.Obj? {
        forall q | q != [] && GetAt(v.fields, q).Ref? ensures GetAt(v.fields, q).addr in heap {
          assert ([p[0]] + q)[1..] == q;
          assert GetAt(o, [p[0]] + q) == GetAt(v.fields, q);
        }
        CrossingIsRefAbove(heap, v.fields, p[1..]);
        if k: nat :| 0 < k < |p| && GetAt(o, p[..k]).Ref? {
          PrefixBelow(o, p, k);
          assert 0 < k - 1 < |p[1..]| && GetAt(v.fields, p[1..][..k - 1]).Ref?;
        }
        if k: nat :| 0 < k < |p[1..]| && GetAt(v.fields, p[1..][..k]).Ref? {
          PrefixBelow(o, p, k + 1);
          assert GetAt(o, p[..k + 1]).Ref?;
        }
      } else {
        forall k: nat | 0 < k < |p| ensures GetAt(o, p[..k]).Ref? <==> v.Ref? && k == 1 {
          if k > 1 { PrefixBelow(o, p, k); }
        }
      }
    }
  }

  /** An entry that stays within the filled object: the heap stays, and the object takes the value at its path. */
  lemma FillOneWithin(heap: Heap, o: Fields, key: string, v: Json)
    requires ValidPath(key) ==> Crossing(heap, o, Segments(key)).None?
    ensures var (ok, heap', o') := FillOne(heap, o, key, v);
            && heap' == heap
            && (ok ==> SetAt(o, Segments(key), v) == (true, o'))
            && (ok <==> ValidSegment(key) || (ValidPath(key) && SetAt(o, Segments(key), v).0))
  {
    if ValidPath(key) { FailureIsClean(o, Segments(key), v); }
    if ValidSegment(key) { IdentifierIsOneSegment(key); }
  }

  lemma {:induction false} IdentifierIsOneSegment(s: string)
    requires '.' !in s
    ensures Segments(s) == [s]
    decreases |s|
  {
    if s != "" {
      IdentifierIsOneSegment(s[1..]);
      assert s == [s[0]] + s[1..];
    }
  }

  /** One more entry keeps what was held, replaces it, or adds to it. */
  lemma HeldStep(keys: Fields, entries: Entries, n: nat, q: seq<string>)
    requires n < |entries| && q != []
    ensures HeldAt(keys, entries, n + 1, q) <==>
              if Pieces(entries, n) == q then ValueAt(keys, entries, n).Ref?
              else HeldAt(keys, entries, n, q) && !(Pieces(entries, n) <= q)
  {
    var next := n + 1;
    if Pieces(entries, n) == q && ValueAt(keys, entries, n).Ref? {
      assert Stored(keys, entries, next, n, q);
    }
    if HeldAt(keys, entries, next, q) {
      var i: nat :| i < next && Stored(keys, entries, next, i, q);
      if i < n { assert Stored(keys, entries, n, i, q); }
    }
    if HeldAt(keys, entries, n, q) && !(Pieces(entries, n) <= q) {
      var i: nat :| i < n && Stored(keys, entries, n, i, q);
      assert Stored(keys, entries, next, i, q);
    }
  }

  lemma TracesStep(keys: Fields, entries: Entries, n: nat, o: Fields)
    requires n < |entries| && Traces(keys, entries, n, o)
    requires var p := Pieces(entries, n); !RefAbove(o, p) && SetAt(o, p, ValueAt(keys, entries, n)).0
    requires !ValueAt(keys, entries, n).Obj?
    ensures Traces(keys, entries, n + 1, SetAt(o, Pieces(entries, n), ValueAt(keys, entries, n)).1)
  {
    var p, v := Pieces(entries, n), ValueAt(keys, entries, n);
    var o' := SetAt(o, p, v).1;
    forall q | q != [] ensures GetAt(o', q).Ref? <==> HeldAt(keys, entries, n + 1, q) {
      GetAfterSet(o, p, v, q);
      HeldStep(keys, entries, n, q);
      if q < p { assert p[..|q|] == q; }
    }
  }

  // ------------------------------------------------------------ the condition in terms of the paths

  /** An object stored so far is in the way of entry `j`. */
  predicate Meets(keys: Fields, entries: Entries, j: nat)
    requires j < |entries|
  {
    exists i: nat :: i < j && Above(entries, i, j) && Stored(keys, entries, j, i, Pieces(entries, i))
  }

  lemma {:induction false} LastAbove(entries: Entries, j: nat, from: nat, k: nat) returns (i: nat)
    requires from < k <= j < |entries| && Above(entries, from, j)
    requires forall m: nat :: k <= m < j ==> !Above(entries, m, j)
    ensures from <= i < j && Above(entries, i, j) && forall m: nat :: i < m < j ==> !Above(entries, m, j)
    decreases k
  {
    if Above(entries, k - 1, j) { i := k - 1; } else { i := LastAbove(entries, j, from, k - 1); }
  }

  lemma {:induction false} MeetsIsEnters(keys: Fields, entries: Entries, j: nat)
    requires j < |entries| && forall i: nat :: i < j ==> !Enters(keys, entries, i)
    ensures Meets(keys, entries, j) <==> Enters(keys, entries, j)
    decreases j
  {
    if Enters(keys, entries, j) {
      var i: nat :| i < j && Above(entries, i, j) && ValueAt(keys, entries, i).Ref?
                    && forall m: nat :: i < m < j ==> !Above(entries, m, j);
      forall m: nat | i < m < j ensures !(Pieces(entries, m) <= Pieces(entries, i)) {
        assert !Above(entries, m, j);
      }
      assert Stored(keys, entries, j, i, Pieces(entries, i));
    }
    if Meets(keys, entries, j) {
      var i: nat :| i < j && Above(entries, i, j) && Stored(keys, entries, j, i, Pieces(entries, i));
      var last := LastAbove(entries, j, i, j);
      if last > i {
        assert Above(entries, i, last) by {
          assert !(Pieces(entries, last) <= Pieces(entries, i));
        }
        assert Stored(keys, entries, last, i, Pieces(entries, i));
        MeetsIsEnters(keys, entries, last);
      }
      assert last == i;
    }
  }

  lemma RefAboveIsMeets(keys: Fields, entries: Entries, j: nat, o: Fields)
    requires j < |entries| && Traces(keys, entries, j, o)
    ensures RefAbove(o, Pieces(entries, j)) <==> Meets(keys, entries, j)
  {
    var p := Pieces(entries, j);
    if k: nat :| 0 < k < |p| && GetAt(o, p[..k]).Ref? {
      assert HeldAt(keys, entries, j, p[..k]);
      var i: nat :| i < j && Stored(keys, entries, j, i, p[..k]);
      assert Above(entries, i, j);
    }
    if i: nat :| i < j && Above(entries, i, j) && Stored(keys, entries, j, i, Pieces(entries, i)) {
      var q := Pieces(entries, i);
      assert HeldAt(keys, entries, j, q);
      assert p[..|q|] == q;
    }
  }

  // ------------------------------------------------------------ filling within the object

  /** The first `n` entries went through within the object: the heap is as before, and `o` holds exactly
      the objects of the state that they stored. */
  ghost predicate Within(keys: Fields, h: Host, heap: Heap, seed: Fields, entries: Entries, n: nat, o: Fields)
    requires n <= |entries|
  {
    && Filled(keys, h, heap, seed, entries[..n]) == (heap, Ok(o))
    && Traces(keys, entries, n, o) && RefsValid(o, heap)
    && forall j: nat :: j < n ==> !Enters(keys, entries, j)
  }

  lemma RefsStayValid(o: Fields, heap: Heap, p: seq<string>, v: Json)
    requires RefsValid(o, heap) && p != [] && SetAt(o, p, v).0 && !v.Obj? && (v.Ref? ==> v.addr in heap)
    ensures RefsValid(SetAt(o, p, v).1, heap)
  {
    forall q | q != [] && GetAt(SetAt(o, p, v).1, q).Ref? ensures GetAt(SetAt(o, p, v).1, q).addr in heap {
      GetAfterSet(o, p, v, q);
    }
  }

  lemma FilledStep(keys: Fields, h: Host, heap: Heap, seed: Fields, entries: Entries, n: nat)
    requires n < |entries|
    ensures Filled(keys, h, heap, seed, entries[..n + 1]) ==
              var (heap', r) := Filled(keys, h, heap, seed, entries[..n]);
              match r
              case Err(e) => (heap', r)
              case Ok(o) =>
                if !Readable(h.authority, entries[n].1) then (heap', Err(OutOfScope(entries[n].1)))
                else
                  var (ok, heap'', next) := FillOne(heap', o, entries[n].0, ValueAt(keys, entries, n));
                  (heap'', if ok then Ok(next) else Err(BadKey(entries[n].0)))
  {
    assert entries[..n + 1][..n] == entries[..n];
  }

  /** A plain name is one segment, so it lies below nothing. */
  lemma PlainNameEntersNothing(keys: Fields, entries: Entries, j: nat)
    requires j < |entries| && ValidSegment(entries[j].0)
    ensures !Enters(keys, entries, j)
  {
    IdentifierIsOneSegment(entries[j].0);
  }

  lemma EntersIsRefAbove(keys: Fields, entries: Entries, j: nat, o: Fields)
    requires j < |entries| && Traces(keys, entries, j, o) && forall i: nat :: i < j ==> !Enters(keys, entries, i)
    ensures RefAbove(o, Pieces(entries, j)) <==> Enters(keys, entries, j)
  {
    MeetsIsEnters(keys, entries, j);
    RefAboveIsMeets(keys, entries, j, o);
  }

  /** One entry that does not enter an object of the state. */
  lemma WithinStep(keys: Fields, h: Host, heap: Heap, seed: Fields, entries: Entries, n: nat, o: Fields)
    requires n < |entries| && Within(keys, h, heap, seed, entries, n, o) && KeysValid(keys, heap)
    requires ValidPath(entries[n].0) && Readable(h.authority, entries[n].1) ==> !Enters(keys, entries, n)
    ensures var (heap', r) := Filled(keys, h, heap, seed, entries[..n + 1]);
            heap' == heap && (r.Ok? ==> Within(keys, h, heap, seed, entries, n + 1, r.value))
  {
    FilledStep(keys, h, heap, seed, entries, n);
    if Readable(h.authority, entries[n].1) {
      var p, v := Pieces(entries, n), ValueAt(keys, entries, n);
      EntersIsRefAbove(keys, entries, n, o);
      CrossingIsRefAbove(heap, o, p);
      FillOneWithin(heap, o, entries[n].0, v);
      var (ok, _, next) := FillOne(heap, o, entries[n].0, v);
      if ok {
        if !ValidPath(entries[n].0) { PlainNameEntersNothing(keys, entries, n); }
        TracesStep(keys, entries, n, o);
        RefsStayValid(o, heap, p, v);
      }
    }
  }

  /** While no reached entry enters, the heap stays. */
  lemma {:induction false} StaysWithin(keys: Fields, h: Host, heap: Heap, seed: Fields, entries: Entries, n: nat)
    requires KeysValid(keys, heap) && Literal(seed) && n <= |entries|
    requires forall j: nat :: j < n && Reached(keys, h, heap, seed, entries, j) ==> !Enters(keys, entries, j)
    ensures var (heap', r) := Filled(keys, h, heap, seed, entries[..n]);
            heap' == heap && (r.Ok? ==> Within(keys, h, heap, seed, entries, n, r.value))
    decreases n
  {
    if n == 0 {
      assert forall q :: q != [] ==> !HeldAt(keys, entries, 0, q);
    } else {
      StaysWithin(keys, h, heap, seed, entries, n - 1);
      var r := Filled(keys, h, heap, seed, entries[..n - 1]).1;
      if r.Ok? {
        assert Reached(keys, h, heap, seed, entries, n - 1) ==> !Enters(keys, entries, n - 1);
        WithinStep(keys, h, heap, seed, entries, n - 1, r.value);
      } else {
        FilledStep(keys, h, heap, seed, entries, n - 1);
      }
    }
  }

  /** The filling up to there does not depend on what the records hold. */
  lemma {:induction false} RecordsDoNotMatter(
      keys: Fields, h: Host, heap: Heap, heap': Heap, seed: Fields, entries: Entries, n: nat)
    requires KeysValid(keys, heap) && heap'.Keys == heap.Keys && Literal(seed) && n <= |entries|
    requires forall j: nat :: j < n && Reached(keys, h, heap, seed, entries, j) ==> !Enters(keys, entries, j)
    ensures Filled(keys, h, heap', seed, entries[..n]).1 == Filled(keys, h, heap, seed, entries[..n]).1
    ensures Filled(keys, h, heap', seed, entries[..n]).0 == heap'
    decreases n
  {
    if n > 0 {
      RecordsDoNotMatter(keys, h, heap, heap', seed, entries, n - 1);
      StaysWithin(keys, h, heap, seed, entries, n - 1);
      FilledStep(keys, h, heap, seed, entries, n - 1);
      FilledStep(keys, h, heap', seed, entries, n - 1);
      var r := Filled(keys, h, heap, seed, entries[..n - 1]).1;
      if r.Ok? && Readable(h.authority, entries[n - 1].1) {
        assert Reached(keys, h, heap, seed, entries, n - 1) ==> !Enters(keys, entries, n - 1);
        SameFillOne(keys, h, heap, heap', seed, entries, n - 1, r.value);
      }
    }
  }

  lemma SameFillOne(keys: Fields, h: Host, heap: Heap, heap': Heap, seed: Fields, entries: Entries, n: nat, o: Fields)
    requires heap'.Keys == heap.Keys && n < |entries| && Within(keys, h, heap, seed, entries, n, o)
    requires ValidPath(entries[n].0) ==> !Enters(keys, entries, n)
    ensures var v := ValueAt(keys, entries, n);
            var (ok, _, next), (ok', heap'', next') := FillOne(heap, o, entries[n].0, v), FillOne(heap', o, entries[n].0, v);
            ok == ok' && heap'' == heap' && (ok ==> next == next')
  {
    var p, v := Pieces(entries, n), ValueAt(keys, entries, n);
    EntersIsRefAbove(keys, entries, n, o);
    CrossingIsRefAbove(heap, o, p);
    CrossingIsRefAbove(heap', o, p);
    FillOneWithin(heap, o, entries[n].0, v);
    FillOneWithin(heap', o, entries[n].0, v);
  }

  // ------------------------------------------------------------ an entry that enters does write

  lemma {:induction false} CrossingIntoEmpty(heap: Heap, o: Fields, p: seq<string>, k: nat)
    requires 0 < k < |p| && GetAt(o, p[..k]).Ref?
    requires GetAt(o, p[..k]).addr in heap && heap[GetAt(o, p[..k]).addr] == map[]
    ensures Crossing(heap, o, p) == Some((GetAt(o, p[..k]).addr, p[k..]))
    decreases |p|
  {
    assert p[..1] == [p[0]] && GetAt(o, p[..1]) == Get(o, p[0]);
    if k > 1 {
      PrefixBelow(o, p, k);
      CrossingIntoEmpty(heap, Get(o, p[0]).fields, p[1..], k - 1);
      assert p[1..][k - 1..] == p[k..];
    }
  }

  lemma {:induction false} WrittenIsNotEmpty(o: Fields, p: seq<string>, v: Json)
    requires p != [] && SetAt(o, p, v).0
    ensures SetAt(o, p, v).1 != map[]
  {
    assert p[0] in SetAt(o, p, v).1;
  }

  lemma FillOneKeepsNonEmpty(heap: Heap, o: Fields, key: string, v: Json, b: nat)
    requires b in heap && heap[b] != map[]
    ensures b in FillOne(heap, o, key, v).1 && FillOne(heap, o, key, v).1[b] != map[]
  {
    if ValidPath(key) {
      var c := Crossing(heap, o, Segments(key));
      if c.Some? && SetAt(heap[c.value.0], c.value.1, v).0 { WrittenIsNotEmpty(heap[c.value.0], c.value.1, v); }
    }
  }

  lemma {:induction false} LaterKeepsNonEmpty(keys: Fields, h: Host, heap: Heap, seed: Fields, entries: Entries, n: nat, m: nat, b: nat)
    requires n <= m <= |entries|
    requires var now := Filled(keys, h, heap, seed, entries[..n]).0; b in now && now[b] != map[]
    ensures var now := Filled(keys, h, heap, seed, entries[..m]).0; b in now && now[b] != map[]
    decreases m
  {
    if n < m {
      LaterKeepsNonEmpty(keys, h, heap, seed, entries, n, m - 1, b);
      FilledStep(keys, h, heap, seed, entries, m - 1);
      var (now, r) := Filled(keys, h, heap, seed, entries[..m - 1]);
      if r.Ok? { FillOneKeepsNonEmpty(now, r.value, entries[m - 1].0, ValueAt(keys, entries, m - 1), b); }
    }
  }

  lemma {:induction false} FirstEntered(keys: Fields, h: Host, heap: Heap, seed: Fields, entries: Entries, n: nat) returns (j: nat)
    requires n < |entries| && Reached(keys, h, heap, seed, entries, n) && Enters(keys, entries, n)
    ensures j <= n && Reached(keys, h, heap, seed, entries, j) && Enters(keys, entries, j)
    ensures forall i: nat :: i < j && Reached(keys, h, heap, seed, entries, i) ==> !Enters(keys, entries, i)
    decreases n
  {
    if i: nat :| i < n && Reached(keys, h, heap, seed, entries, i) && Enters(keys, entries, i) {
      j := FirstEntered(keys, h, heap, seed, entries, i);
    } else {
      j := n;
    }
  }

  /** The first entry that enters changes the object it enters, if that was empty. */
  lemma EmptyObjectIsWritten(keys: Fields, h: Host, heap: Heap, seed: Fields, entries: Entries, j: nat) returns (b: nat)
    requires KeysValid(keys, heap) && Literal(seed) && j < |entries|
    requires Reached(keys, h, heap, seed, entries, j) && Enters(keys, entries, j)
    requires forall i: nat :: i < j && Reached(keys, h, heap, seed, entries, i) ==> !Enters(keys, entries, i)
    ensures b in heap && var now := Filled(keys, h, heap[b := map[]], seed, entries[..j + 1]).0; b in now && now[b] != map[]
  {
    StaysWithin(keys, h, heap, seed, entries, j);
    var o, p, v := Filled(keys, h, heap, seed, entries[..j]).1.value, Pieces(entries, j), ValueAt(keys, entries, j);
    EntersIsRefAbove(keys, entries, j, o);
    var k: nat :| 0 < k < |p| && GetAt(o, p[..k]).Ref?;
    b := GetAt(o, p[..k]).addr;
    var empty := heap[b := map[]];
    assert empty.Keys == heap.Keys;
    RecordsDoNotMatter(keys, h, heap, empty, seed, entries, j);
    FilledStep(keys, h, empty, seed, entries, j);
    CrossingIntoEmpty(empty, o, p, k);
    EmptyNeverBlocks(p[k..], v);
    WrittenIsNotEmpty(map[], p[k..], v);
  }

  /** Whatever the records hold, the fill leaves them as they are. */
  ghost predicate LeavesRecords(keys: Fields, h: Host, heap: Heap, seed: Fields, entries: Entries) {
    forall heap': Heap :: heap'.Keys == heap.Keys ==> Filled(keys, h, heap', seed, entries).0 == heap'
  }

  lemma SeparateLeavesRecords(keys: Fields, h: Host, heap: Heap, seed: Fields, entries: Entries)
    requires KeysValid(keys, heap) && Literal(seed) && Separate(keys, h, heap, seed, entries)
    ensures LeavesRecords(keys, h, heap, seed, entries)
  {
    assert entries[..|entries|] == entries;
    forall heap': Heap | heap'.Keys == heap.Keys ensures Filled(keys, h, heap', seed, entries).0 == heap' {
      RecordsDoNotMatter(keys, h, heap, heap', seed, entries, |entries|);
    }
  }

  lemma EnteringChangesARecord(keys: Fields, h: Host, heap: Heap, seed: Fields, entries: Entries, n: nat)
    requires KeysValid(keys, heap) && Literal(seed)
    requires n < |entries| && Reached(keys, h, heap, seed, entries, n) && Enters(keys, entries, n)
    ensures !LeavesRecords(keys, h, heap, seed, entries)
  {
    assert entries[..|entries|] == entries;
    var j := FirstEntered(keys, h, heap, seed, entries, n);
    var b := EmptyObjectIsWritten(keys, h, heap, seed, entries, j);
    LaterKeepsNonEmpty(keys, h, heap[b := map[]], seed, entries, j + 1, |entries|, b);
    assert heap[b := map[]].Keys == heap.Keys;
  }

  /** An object is filled without writing into any object of the state, whatever those objects hold,
      exactly when no reached entry enters one. */
  lemma SeparateExactly(keys: Fields, h: Host, heap: Heap, seed: Fields, entries: Entries)
    requires KeysValid(keys, heap) && Literal(seed)
    ensures Separate(keys, h, heap, seed, entries) <==> LeavesRecords(keys, h, heap, seed, entries)
  {
    if Separate(keys, h, heap, seed, entries) {
      SeparateLeavesRecords(keys, h, heap, seed, entries);
    } else {
      var n: nat :| n < |entries| && Reached(keys, h, heap, seed, entries, n) && Enters(keys, entries, n);
      EnteringChangesARecord(keys, h, heap, seed, entries, n);
    }
  }

  // ------------------------------------------------------------ whole actions

  /** The action fills an object from state, and gets to it. */
  predicate Fills(a: Action, s: Store, h: Host) {
    && EntriesOf(a).Some? && Writable(h.authority, a.target)
    && (a.UpdateItem? ==> Asked(s, h, a.at).Ok?)
  }

  predicate ActsSeparately(a: Action, s: Store, h: Host) {
    Fills(a, s, h) ==> Separate(s.keys, h, s.heap, SeedOf(a), EntriesOf(a).value)
  }

  /** The same keys and objects, which may hold something else. */
  predicate SameShape(s: Store, s': Store) { s'.keys == s.keys && s'.next == s.next && s'.heap.Keys == s.heap.Keys }

  /** The heap that an action leaves behind, but for a record made for a new object. */
  function HeapOf(a: Action, s: Store, h: Host): Heap {
    if Fills(a, s, h) then Filled(s.keys, h, s.heap, SeedOf(a), EntriesOf(a).value).0 else s.heap
  }

  lemma HeapOfAction(a: Action, s: Store, h: Host)
    requires !a.SubmitToAgent? && Writable(h.authority, a.target)
    ensures NewValue(a, s, h).0 == HeapOf(a, s, h)
  {
  }

  lemma ObjectsOfAction(a: Action, s: Store, h: Host, depth: int)
    requires depth <= MAX_ACTION_DEPTH && (forall b :: b in s.heap ==> b < s.next)
    ensures ObjectsKept(s.heap, Applied(a, s, h, depth).store.heap) <==> HeapOf(a, s, h) == s.heap
  {
    HeapOfKeepsAddresses(a, s, h);
    if !a.SubmitToAgent? && Writable(h.authority, a.target) { HeapOfAction(a, s, h); }
    assert ObjectsKept(s.heap, HeapOf(a, s, h)) <==> HeapOf(a, s, h) == s.heap;
  }

  lemma {:induction false} FilledKeepsAddresses(keys: Fields, h: Host, heap: Heap, seed: Fields, entries: Entries)
    ensures Filled(keys, h, heap, seed, entries).0.Keys == heap.Keys
    decreases |entries|
  {
    if entries != [] {
      FilledKeepsAddresses(keys, h, heap, seed, entries[..|entries| - 1]);
    }
  }

  lemma HeapOfKeepsAddresses(a: Action, s: Store, h: Host)
    ensures HeapOf(a, s, h).Keys == s.heap.Keys
  {
    if Fills(a, s, h) { FilledKeepsAddresses(s.keys, h, s.heap, SeedOf(a), EntriesOf(a).value); }
  }

  lemma HeapKeptExactly(a: Action, s: Store, h: Host)
    requires Valid(s) && Defined(a)
    ensures ActsSeparately(a, s, h) <==> forall heap: Heap :: heap.Keys == s.heap.Keys ==> HeapOf(a, s.(heap := heap), h) == heap
  {
    forall heap: Heap ensures Fills(a, s.(heap := heap), h) == Fills(a, s, h) {
    }
    if Fills(a, s, h) { SeparateExactly(s.keys, h, s.heap, SeedOf(a), EntriesOf(a).value); }
  }

  /** An action leaves every object of the state as it was, whatever the objects hold, exactly when none of
      its entries that is reached has a path that extends the path of an earlier one which stored an
      object, with nothing stored above it in between. */
  lemma ObjectsAreKeptExactly(a: Action, s: Store, h: Host, depth: int)
    requires Valid(s) && Defined(a) && depth <= MAX_ACTION_DEPTH
    ensures ActsSeparately(a, s, h) <==>
              forall s' :: SameShape(s, s') ==> ObjectsKept(s'.heap, Applied(a, s', h, depth).store.heap)
  {
    HeapKeptExactly(a, s, h);
    forall s' | SameShape(s, s')
      ensures ObjectsKept(s'.heap, Applied(a, s', h, depth).store.heap) <==> HeapOf(a, s.(heap := s'.heap), h) == s'.heap
    {
      assert s' == s.(heap := s'.heap);
      ObjectsOfAction(a, s', h, depth);
    }
    if forall s' :: SameShape(s, s') ==> ObjectsKept(s'.heap, Applied(a, s', h, depth).store.heap) {
      forall heap: Heap | heap.Keys == s.heap.Keys ensures HeapOf(a, s.(heap := heap), h) == heap {
        assert SameShape(s, s.(heap := heap));
      }
    }
  }

  /** The store stays valid. */
  lemma ActionKeepsValid(a: Action, s: Store, h: Host, depth: int)
    requires Valid(s) && Defined(a)
    ensures Valid(Applied(a, s, h, depth).store)
  {
    HeapOfKeepsAddresses(a, s, h);
    if !a.SubmitToAgent? && Writable(h.authority, a.target) { HeapOfAction(a, s, h); }
  }

  /** When it does not keep them: an object is stored at "a" and something else below it. The object in
      the state takes the value, although its key need be neither writable nor reported, and also when a
      later entry makes the action fail. */
  lemma EntryWritesIntoState(s: Store, h: Host, target: string, k: string, x: string, u: string)
    requires Valid(s) && Get(s.keys, k).Ref? && Writable(h.authority, target)
    requires Readable(h.authority, k) && Readable(h.authority, x) && !Readable(h.authority, u)
    ensures var b, v := Get(s.keys, k).addr, Get(s.keys, x);
            var r := Applied(AppendItem(target, Undefined, Some([("a", k), ("a.b", x)])), s, h, 0);
            var f := Applied(AppendItem(target, Undefined, Some([("a", k), ("a.b", x), ("c", u)])), s, h, 0);
            && r.errors == [] && r.changedKeys == [target] && r.store.heap == s.heap[b := s.heap[b]["b" := v]]
            && f.errors == [OutOfScope(u)] && f.changedKeys == [] && f.store == s.(heap := s.heap[b := s.heap[b]["b" := v]])
  {
    var one, two, three: Entries := [("a", k)], [("a", k), ("a.b", x)], [("a", k), ("a.b", x), ("c", u)];
    var b, v := Get(s.keys, k).addr, Get(s.keys, x);
    assert one[..0] == [] && two[..1] == one && three[..2] == two;
    SegmentsOfPair();
    assert Filled(s.keys, h, s.heap, map[], one) == (s.heap, Ok(map["a" := Ref(b)]));
    assert Crossing(s.heap, map["a" := Ref(b)], ["a", "b"]) == Some((b, ["b"])) by { assert ["a", "b"][1..] == ["b"]; }
    assert Filled(s.keys, h, s.heap, map[], two) == (s.heap[b := s.heap[b]["b" := v]], Ok(map["a" := Ref(b)]));
    assert Filled(s.keys, h, s.heap, map[], three) == (s.heap[b := s.heap[b]["b" := v]], Err(OutOfScope(u)));
  }

  lemma SegmentsOfPair()
    ensures ValidPath("a") && Segments("a") == ["a"] && ValidPath("a.b") && Segments("a.b") == ["a", "b"]
  {
    IdentifierIsOneSegment("a");
    IdentifierIsOneSegment("b");
    assert ".b"[1..] == "b" && "a.b"[1..] == ".b";
    assert Segments(".b") == ["", "b"];
    assert Segments("a.b") == [['a'] + ""] + ["", "b"][1..];
    assert ['a'] + "" == "a" && ["", "b"][1..] == ["b"];
    assert |"__proto__"| == 9 && |"constructor"| == 11 && |"prototype"| == 9;
  }
}
