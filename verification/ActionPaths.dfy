/** The same condition read off the action and the kinds of the values it names, before anything is filled
    (src/lib/actions.ts). */
module ActionPaths {
  import opened Common
  import opened DottedPaths
  import opened Actions
  import opened ActionObjects

  datatype Kind = Nothing | Object | Shared | Other

  function KindOf(v: Json): Kind {
    if Nullish(v) then Nothing else if v.Obj? then Object else if v.Ref? then Shared else Other
  }

  /** What stands at `q` before entry `n`, told from the seed, the paths and the kinds of the values. */
  function KindAt(keys: Fields, seed: Fields, entries: Entries, n: nat, q: seq<string>): Kind
    requires n <= |entries| && q != []
  {
    if n == 0 then KindOf(GetAt(seed, q))
    else
      var p := Pieces(entries, n - 1);
      if p == q then KindOf(ValueAt(keys, entries, n - 1))
      else if p < q then Nothing
      else if q < p then Object
      else KindAt(keys, seed, entries, n - 1, q)
  }

  /** Nothing stands in the way of entry `j`. */
  predicate Clear(keys: Fields, seed: Fields, entries: Entries, j: nat)
    requires j < |entries|
  {
    var p := Pieces(entries, j);
    forall k: nat :: 0 < k < |p| ==> KindAt(keys, seed, entries, j, p[..k]).Nothing? || KindAt(keys, seed, entries, j, p[..k]).Object?
  }

  /** Entry `j` goes through. */
  predicate Passes(keys: Fields, h: Host, seed: Fields, entries: Entries, j: nat)
    requires j < |entries|
  {
    && Readable(h.authority, entries[j].1)
    && (ValidSegment(entries[j].0) || (ValidPath(entries[j].0) && Clear(keys, seed, entries, j)))
  }

  /** The entries before `j` go through, and the key of `j` is read. */
  predicate ReachedByPaths(keys: Fields, h: Host, seed: Fields, entries: Entries, j: nat)
    requires j < |entries|
  {
    && Readable(h.authority, entries[j].1) && ValidPath(entries[j].0)
    && forall i: nat :: i < j ==> Passes(keys, h, seed, entries, i)
  }

  predicate SeparateByPaths(keys: Fields, h: Host, seed: Fields, entries: Entries) {
    forall j: nat :: j < |entries| && ReachedByPaths(keys, h, seed, entries, j) ==> !Enters(keys, entries, j)
  }

  ghost predicate KindsTold(keys: Fields, seed: Fields, entries: Entries, n: nat, o: Fields)
    requires n <= |entries|
  {
    forall q :: q != [] ==> KindOf(GetAt(o, q)) == KindAt(keys, seed, entries, n, q)
  }

  lemma ClearIsUnblocked(keys: Fields, seed: Fields, entries: Entries, j: nat, o: Fields)
    requires j < |entries| && KindsTold(keys, seed, entries, j, o)
    ensures Clear(keys, seed, entries, j) <==> !Blocked(o, Pieces(entries, j))
  {
    var p := Pieces(entries, j);
    forall k: nat | 0 < k < |p|
      ensures KindOf(GetAt(o, p[..k])) == KindAt(keys, seed, entries, j, p[..k])
    {
    }
  }

  lemma KindsStep(keys: Fields, seed: Fields, entries: Entries, n: nat, o: Fields)
    requires n < |entries| && KindsTold(keys, seed, entries, n, o)
    requires SetAt(o, Pieces(entries, n), ValueAt(keys, entries, n)).0 && !ValueAt(keys, entries, n).Obj?
    ensures KindsTold(keys, seed, entries, n + 1, SetAt(o, Pieces(entries, n), ValueAt(keys, entries, n)).1)
  {
    forall q | q != []
      ensures KindOf(GetAt(SetAt(o, Pieces(entries, n), ValueAt(keys, entries, n)).1, q)) == KindAt(keys, seed, entries, n + 1, q)
    {
      GetAfterSet(o, Pieces(entries, n), ValueAt(keys, entries, n), q);
    }
  }

  /** One more entry that enters nothing: it passes exactly when it fills. */
  lemma PassesStep(keys: Fields, h: Host, heap: Heap, seed: Fields, entries: Entries, n: nat, o: Fields)
    requires n < |entries| && Within(keys, h, heap, seed, entries, n, o) && KeysValid(keys, heap)
    requires KindsTold(keys, seed, entries, n, o)
    requires ValidPath(entries[n].0) && Readable(h.authority, entries[n].1) ==> !Enters(keys, entries, n)
    ensures var r := Filled(keys, h, heap, seed, entries[..n + 1]).1;
            (r.Ok? <==> Passes(keys, h, seed, entries, n)) && (r.Ok? ==> KindsTold(keys, seed, entries, n + 1, r.value))
  {
    FilledStep(keys, h, heap, seed, entries, n);
    if Readable(h.authority, entries[n].1) {
      var p, v := Pieces(entries, n), ValueAt(keys, entries, n);
      EntersIsRefAbove(keys, entries, n, o);
      CrossingIsRefAbove(heap, o, p);
      FillOneWithin(heap, o, entries[n].0, v);
      ClearIsUnblocked(keys, seed, entries, n, o);
      FailureIsClean(o, p, v);
      if FillOne(heap, o, entries[n].0, v).0 { KindsStep(keys, seed, entries, n, o); }
    }
  }

  /** While no reached entry enters, the fill gets as far as the paths tell. */
  lemma {:induction false} PathsTell(keys: Fields, h: Host, heap: Heap, seed: Fields, entries: Entries, n: nat)
    requires KeysValid(keys, heap) && Literal(seed) && n <= |entries|
    requires forall j: nat :: j < n && Reached(keys, h, heap, seed, entries, j) ==> !Enters(keys, entries, j)
    ensures var r := Filled(keys, h, heap, seed, entries[..n]).1;
            && (r.Ok? <==> forall i: nat :: i < n ==> Passes(keys, h, seed, entries, i))
            && (r.Ok? ==> KindsTold(keys, seed, entries, n, r.value))
    decreases n
  {
    if n > 0 {
      PathsTell(keys, h, heap, seed, entries, n - 1);
      StaysWithin(keys, h, heap, seed, entries, n - 1);
      FilledStep(keys, h, heap, seed, entries, n - 1);
      var r := Filled(keys, h, heap, seed, entries[..n - 1]).1;
      if r.Ok? {
        assert Reached(keys, h, heap, seed, entries, n - 1) ==> !Enters(keys, entries, n - 1);
        PassesStep(keys, h, heap, seed, entries, n - 1, r.value);
      }
    }
  }

  lemma {:induction false} NoneEntered(keys: Fields, h: Host, heap: Heap, seed: Fields, entries: Entries, n: nat)
    requires KeysValid(keys, heap) && Literal(seed) && n <= |entries| && SeparateByPaths(keys, h, seed, entries)
    ensures forall j: nat :: j < n && Reached(keys, h, heap, seed, entries, j) ==> !Enters(keys, entries, j)
    decreases n
  {
    if n > 0 {
      NoneEntered(keys, h, heap, seed, entries, n - 1);
      PathsTell(keys, h, heap, seed, entries, n - 1);
      assert Reached(keys, h, heap, seed, entries, n - 1) ==> ReachedByPaths(keys, h, seed, entries, n - 1);
    }
  }

  /** The condition can be read off the paths, the seed and the kinds of the values, before anything is
      filled: an object is filled without writing into any object of the state, whatever those hold,
      exactly when no entry that the paths let through so far enters one. */
  lemma SeparateByPathsExactly(keys: Fields, h: Host, heap: Heap, seed: Fields, entries: Entries)
    requires KeysValid(keys, heap) && Literal(seed)
    ensures SeparateByPaths(keys, h, seed, entries) <==> Separate(keys, h, heap, seed, entries)
    ensures SeparateByPaths(keys, h, seed, entries) <==> LeavesRecords(keys, h, heap, seed, entries)
  {
    SeparateExactly(keys, h, heap, seed, entries);
    if SeparateByPaths(keys, h, seed, entries) {
      NoneEntered(keys, h, heap, seed, entries, |entries|);
    }
    if Separate(keys, h, heap, seed, entries) {
      forall j: nat | j < |entries| && ReachedByPaths(keys, h, seed, entries, j) ensures !Enters(keys, entries, j) {
        PathsTell(keys, h, heap, seed, entries, j);
        assert Reached(keys, h, heap, seed, entries, j);
      }
    }
  }

  predicate ActsSeparatelyByPaths(a: Action, s: Store, h: Host) {
    Fills(a, s, h) ==> SeparateByPaths(s.keys, h, SeedOf(a), EntriesOf(a).value)
  }

  /** So for a whole action: it leaves every object of the state as it was, whatever the objects hold,
      exactly when its paths say so. */
  lemma ObjectsAreKeptByPathsExactly(a: Action, s: Store, h: Host, depth: int)
    requires Valid(s) && Defined(a) && depth <= MAX_ACTION_DEPTH
    ensures ActsSeparatelyByPaths(a, s, h) <==>
              forall s' :: SameShape(s, s') ==> ObjectsKept(s'.heap, Applied(a, s', h, depth).store.heap)
  {
    ObjectsAreKeptExactly(a, s, h, depth);
    if Fills(a, s, h) { SeparateByPathsExactly(s.keys, h, s.heap, SeedOf(a), EntriesOf(a).value); }
  }
}
