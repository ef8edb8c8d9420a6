/** What each action leaves in the state, for every store and host (src/lib/actions.ts). */
module ActionEffects {
  import opened Common
  import opened DottedPaths
  import opened Actions
  import ActionObjects

  /** The action went through and left `v` at its target: the value itself, or for an object a new record
      with its fields. Nothing else is reported or sent. */
  predicate Leaves(s: Store, r: Outcome, target: string, v: Json) {
    && r.errors == [] && r.changedKeys == [target] && r.sent == []
    && target in r.store.keys && r.store.keys == s.keys[target := r.store.keys[target]]
    && if v.Obj? then
         r.store.keys[target] == Ref(s.next) && r.store.next == s.next + 1 && s.next in r.store.heap && r.store.heap[s.next] == v.fields
       else r.store.keys[target] == v && r.store.next == s.next
  }

  /** The action changed, reported and sent nothing. */
  predicate DoesNothing(s: Store, r: Outcome, errors: seq<Error>) {
    r.store == s && r.errors == errors && r.changedKeys == [] && r.sent == []
  }

  /** The values that count as false. */
  predicate IsFalsy(v: Json) { v == Undefined || v == Null || v == Bool(false) || v == Num(0.0) || v == Str("") }

  // ------------------------------------------------------------ simple values

  lemma SetValueLeavesTheValue(s: Store, h: Host, target: string, v: Json)
    requires Writable(h.authority, target)
    ensures Leaves(s, Applied(SetValue(target, v), s, h, 0), target, v)
  {
  }

  /** A toggle leaves a boolean, the opposite of the truth value before. */
  lemma ToggleFlips(s: Store, h: Host, target: string)
    requires Writable(h.authority, target)
    ensures Leaves(s, Applied(Toggle(target), s, h, 0), target, Bool(IsFalsy(Get(s.keys, target))))
  {
  }

  lemma SelectTabLeavesTheTab(s: Store, h: Host, target: string, tabId: string)
    requires Writable(h.authority, target)
    ensures Leaves(s, Applied(SelectTab(target, tabId), s, h, 0), target, Str(tabId))
  {
  }

  /** A reset leaves its value, and 0 if it has none. */
  lemma ResetLeavesValueOrZero(s: Store, h: Host, target: string, v: Json)
    requires Writable(h.authority, target)
    ensures Leaves(s, Applied(Reset(target, v), s, h, 0), target, if v == Undefined || v == Null then Num(0.0) else v)
  {
  }

  /** Counting starts from the number that the host reads in the value, from what it reads in 0 if there is
      no value, and from 0 if it reads no number. */
  predicate CountsFrom(s: Store, h: Host, target: string, n: real) {
    var v := Get(s.keys, target);
    var read := if v == Undefined || v == Null then h.number(s.heap, Num(0.0)) else h.number(s.heap, v);
    n == if read.Some? then read.value else 0.0
  }

  /** An increment adds its amount and a decrement takes it away; the amount is 1 if none is given. */
  lemma CountingMovesByTheAmount(s: Store, h: Host, target: string, n: real, amount: real)
    requires Writable(h.authority, target) && CountsFrom(s, h, target, n)
    ensures Leaves(s, Applied(Increment(target, Some(amount)), s, h, 0), target, Num(n + amount))
    ensures Leaves(s, Applied(Decrement(target, Some(amount)), s, h, 0), target, Num(n - amount))
    ensures Leaves(s, Applied(Increment(target, None), s, h, 0), target, Num(n + 1.0))
    ensures Leaves(s, Applied(Decrement(target, None), s, h, 0), target, Num(n - 1.0))
  {
  }

  // ------------------------------------------------------------ lists

  /** The list at the target; a value of another kind counts as an empty one. */
  predicate ListIs(s: Store, target: string, items: seq<Json>) {
    var v := Get(s.keys, target);
    if v.Arr? then items == v.items else items == []
  }

  lemma AppendPutsTheItemLast(s: Store, h: Host, target: string, items: seq<Json>, item: Json)
    requires Writable(h.authority, target) && ListIs(s, target, items)
    ensures Leaves(s, Applied(AppendItem(target, item, None), s, h, 0), target, Arr(items + [item]))
  {
  }

  /** Plain names, all different, of readable keys. */
  predicate PlainEntries(h: Host, entries: Entries) {
    && (forall i: nat :: i < |entries| ==> ValidSegment(entries[i].0) && Readable(h.authority, entries[i].1))
    && (forall i: nat, j: nat :: i < j < |entries| ==> entries[i].0 != entries[j].0)
  }

  /** The object takes the value of each entry's key under the entry's name, and keeps the rest. */
  ghost predicate TakesEntries(keys: Fields, seed: Fields, entries: Entries, o: Fields) {
    && (forall i: nat :: i < |entries| ==> entries[i].0 in o && o[entries[i].0] == Get(keys, entries[i].1))
    && (forall k :: (forall i: nat :: i < |entries| ==> entries[i].0 != k) ==> (k in o <==> k in seed) && Get(o, k) == Get(seed, k))
  }

  lemma PlainFill(heap: Heap, o: Fields, key: string, v: Json)
    requires ValidSegment(key)
    ensures FillOne(heap, o, key, v) == (true, heap, o[key := v])
  {
    ActionObjects.IdentifierIsOneSegment(key);
  }

  lemma TakesOneMore(keys: Fields, seed: Fields, entries: Entries, before: Fields)
    requires entries != [] && TakesEntries(keys, seed, entries[..|entries| - 1], before)
    requires forall i: nat :: i < |entries| - 1 ==> entries[i].0 != entries[|entries| - 1].0
    ensures var (name, key) := entries[|entries| - 1]; TakesEntries(keys, seed, entries, before[name := Get(keys, key)])
  {
    var init, last := entries[..|entries| - 1], entries[|entries| - 1];
    var o := before[last.0 := Get(keys, last.1)];
    forall i: nat | i < |entries| ensures entries[i].0 in o && o[entries[i].0] == Get(keys, entries[i].1) {
      if i < |init| { assert entries[i] == init[i]; }
    }
    forall k | forall i: nat :: i < |entries| ==> entries[i].0 != k
      ensures (k in o <==> k in seed) && Get(o, k) == Get(seed, k)
    {
      assert entries[|entries| - 1].0 != k;
      assert forall i: nat :: i < |init| ==> init[i].0 == entries[i].0;
    }
  }

  lemma {:induction false} PlainEntriesFill(keys: Fields, h: Host, heap: Heap, seed: Fields, entries: Entries) returns (o: Fields)
    requires PlainEntries(h, entries)
    ensures Filled(keys, h, heap, seed, entries) == (heap, Ok(o)) && TakesEntries(keys, seed, entries, o)
    decreases |entries|
  {
    if entries == [] {
      o := seed;
    } else {
      var init, last := entries[..|entries| - 1], entries[|entries| - 1];
      assert forall i: nat :: i < |init| ==> entries[i] == init[i];
      var before := PlainEntriesFill(keys, h, heap, seed, init);
      PlainFill(heap, before, last.0, Get(keys, last.1));
      TakesOneMore(keys, seed, entries, before);
      o := before[last.0 := Get(keys, last.1)];
    }
  }

  lemma AppendOfFilled(s: Store, h: Host, target: string, items: seq<Json>, item: Json, entries: Entries, o: Fields)
    requires Writable(h.authority, target) && ListIs(s, target, items)
    requires Filled(s.keys, h, s.heap, if item.Obj? then item.fields else map[], entries) == (s.heap, Ok(o))
    ensures Leaves(s, Applied(AppendItem(target, item, Some(entries)), s, h, 0), target, Arr(items + [Obj(o)]))
  {
    assert Appended(s, h, items, item, Some(entries)) == (s.heap, Ok(Arr(items + [Obj(o)])));
  }

  /** An item filled from state under plain names: it holds the values of the named keys and keeps what the
      static item has under other names. A static item that is no object gives nothing. */
  lemma AppendFillsTheItem(s: Store, h: Host, target: string, items: seq<Json>, item: Json, entries: Entries) returns (o: Fields)
    requires Writable(h.authority, target) && ListIs(s, target, items) && PlainEntries(h, entries)
    ensures TakesEntries(s.keys, if item.Obj? then item.fields else map[], entries, o)
    ensures Leaves(s, Applied(AppendItem(target, item, Some(entries)), s, h, 0), target, Arr(items + [Obj(o)]))
  {
    o := PlainEntriesFill(s.keys, h, s.heap, if item.Obj? then item.fields else map[], entries);
    AppendOfFilled(s, h, target, items, item, entries, o);
  }

  /** The item that a static index or id asks for: the index wins, and the id means the first item with it. */
  predicate AsksFor(s: Store, h: Host, items: seq<Json>, index: Option<int>, id: Option<string>, k: int) {
    if index.Some? then k == index.value
    else if id.Some? && exists i: nat :: i < |items| && HasId(h, s.heap, items[i], id.value) then
      0 <= k < |items| && HasId(h, s.heap, items[k], id.value) && forall i: nat :: i < k ==> !HasId(h, s.heap, items[i], id.value)
    else k == -1
  }

  lemma IndexIsAskedFor(s: Store, h: Host, items: seq<Json>, index: Option<int>, id: Option<string>)
    ensures AsksFor(s, h, items, index, id, ItemIndex(h, s.heap, items, (index, id)))
    ensures forall k :: AsksFor(s, h, items, index, id, k) ==> k == ItemIndex(h, s.heap, items, (index, id))
  {
    if index.None? && id.Some? {
      var k := FirstWithId(h, s.heap, items, id.value);
      if i: nat :| i < |items| && HasId(h, s.heap, items[i], id.value) { assert k >= 0; }
    }
  }

  lemma HasIdIs(h: Host, heap: Heap, item: Json, id: string)
    ensures HasId(h, heap, item, id) <==>
              || (item.Obj? && "id" in item.fields && h.text(heap, item.fields["id"]) == id)
              || (item.Ref? && item.addr in heap && "id" in heap[item.addr] && h.text(heap, heap[item.addr]["id"]) == id)
  {
  }

  /** A removal takes out exactly the item asked for; an index out of range or an unknown id does nothing. */
  lemma RemoveTakesTheItemOut(s: Store, h: Host, target: string, items: seq<Json>, index: Option<int>, id: Option<string>, k: int)
    requires Writable(h.authority, target) && ListIs(s, target, items) && AsksFor(s, h, items, index, id, k)
    ensures var r := Applied(RemoveItem(target, Locator(index, id, None, None)), s, h, 0);
            if 0 <= k < |items| then Leaves(s, r, target, Arr(items[..k] + items[k + 1..])) else DoesNothing(s, r, [])
  {
    IndexIsAskedFor(s, h, items, index, id);
  }

  /** An update puts the patch over the item asked for, key by key, and keeps the list otherwise. */
  lemma UpdatePatchesTheItem(s: Store, h: Host, target: string, items: seq<Json>, index: Option<int>, id: Option<string>, k: nat, patch: Fields)
    requires Writable(h.authority, target) && ListIs(s, target, items) && AsksFor(s, h, items, index, id, k) && k < |items|
    requires items[k].Obj? || (items[k].Ref? && items[k].addr in s.heap)
    ensures var r := Applied(UpdateItem(target, Locator(index, id, None, None), Some(patch), None), s, h, 0);
            var was := if items[k].Obj? then items[k].fields else s.heap[items[k].addr];
            Leaves(s, r, target, Arr(items[k := Obj(was + patch)]))
  {
    IndexIsAskedFor(s, h, items, index, id);
  }

  /** Nothing to update: no patch, an item out of range, or one that is neither an object nor an array. */
  lemma UpdateDoesNothing(s: Store, h: Host, target: string, items: seq<Json>, index: Option<int>, id: Option<string>, k: int, patch: Option<Fields>)
    requires Writable(h.authority, target) && ListIs(s, target, items) && AsksFor(s, h, items, index, id, k)
    requires patch.None? || k < 0 || |items| <= k
             || items[k].Undefined? || items[k].Null? || items[k].Bool? || items[k].Num? || items[k].Str?
    ensures DoesNothing(s, Applied(UpdateItem(target, Locator(index, id, None, None), patch, None), s, h, 0), [])
  {
    IndexIsAskedFor(s, h, items, index, id);
  }

  /** The number that a numeral stands for. */
  function ValueOf(digits: string): nat {
    if digits == "" then 0
    else
      var last := digits[|digits| - 1];
      10 * ValueOf(digits[..|digits| - 1]) + if '0' <= last <= '9' then last as int - '0' as int else 0
  }

  /** Digits only, and no leading zero but in "0". */
  predicate IsNumeral(s: string) {
    s != "" && (forall i | 0 <= i < |s| :: '0' <= s[i] <= '9') && (s[0] == '0' ==> |s| == 1)
  }

  lemma {:induction false} DecimalIs(n: nat)
    ensures IsNumeral(Decimal(n)) && ValueOf(Decimal(n)) == n && (Decimal(n)[0] == '0' <==> n == 0)
    decreases n
  {
    if n < 10 {
      DigitIs(n);
      assert Decimal(n) == ["0123456789"[n]] && Decimal(n)[..0] == "";
    } else {
      DecimalIs(n / 10);
      DigitIs(n % 10);
      NumeralGrows(Decimal(n / 10), "0123456789"[n % 10]);
    }
  }

  lemma DigitIs(n: nat)
    requires n < 10
    ensures var c := "0123456789"[n]; '0' <= c <= '9' && c as int - '0' as int == n
  {
  }

  lemma NumeralGrows(front: string, digit: char)
    requires IsNumeral(front) && front[0] != '0' && '0' <= digit <= '9'
    ensures IsNumeral(front + [digit]) && (front + [digit])[0] == front[0]
    ensures ValueOf(front + [digit]) == 10 * ValueOf(front) + (digit as int - '0' as int)
  {
    assert (front + [digit])[..|front|] == front;
  }

  /** The object has the items of the list under the numerals of their indices, and nothing else. */
  ghost predicate IsSpread(o: Fields, items: seq<Json>) {
    && (forall i: nat :: i < |items| ==> Decimal(i) in o && o[Decimal(i)] == items[i])
    && (forall k :: k in o ==> IsNumeral(k) && ValueOf(k) < |items|)
  }

  lemma {:induction false} SpreadItemsIs(items: seq<Json>)
    ensures IsSpread(SpreadItems(items), items)
    decreases |items|
  {
    if items != [] {
      var init, n := items[..|items| - 1], |items| - 1;
      SpreadItemsIs(init);
      DecimalIs(n);
      forall i: nat | i < |items| ensures Decimal(i) in SpreadItems(items) && SpreadItems(items)[Decimal(i)] == items[i] {
        DecimalIs(i);
        if i < n { assert Decimal(i) in SpreadItems(init) && items[i] == init[i]; }
      }
    }
  }

  /** An item that is a list is updated too: it becomes an object with its entries under their indices. */
  lemma UpdateSpreadsAList(s: Store, h: Host, target: string, items: seq<Json>, index: Option<int>, id: Option<string>, k: nat, patch: Fields)
    returns (o: Fields)
    requires Writable(h.authority, target) && ListIs(s, target, items) && AsksFor(s, h, items, index, id, k) && k < |items|
    requires items[k].Arr?
    ensures IsSpread(o, items[k].items)
    ensures Leaves(s, Applied(UpdateItem(target, Locator(index, id, None, None), Some(patch), None), s, h, 0), target,
                   Arr(items[k := Obj(o + patch)]))
  {
    IndexIsAskedFor(s, h, items, index, id);
    o := SpreadItems(items[k].items);
    SpreadItemsIs(items[k].items);
  }

  predicate Given(s: Option<string>) { s.Some? && |s.value| > 0 }

  /** An index or id read from state replaces the static one. An index that is no integer, or an id that is
      absent, asks for nothing; a key that is not readable is refused, the id's first. */
  lemma LocatorReadsState(s: Store, h: Host, at: Locator)
    ensures var idKey, indexKey := at.idFromState, at.indexFromState;
      && (Given(idKey) && !Readable(h.authority, idKey.value) ==> Asked(s, h, at) == Err(OutOfScope(idKey.value)))
      && ((Given(idKey) ==> Readable(h.authority, idKey.value)) && Given(indexKey) && !Readable(h.authority, indexKey.value) ==>
            Asked(s, h, at) == Err(OutOfScope(indexKey.value)))
      && ((Given(idKey) ==> Readable(h.authority, idKey.value)) && (Given(indexKey) ==> Readable(h.authority, indexKey.value)) ==>
            exists index, id ::
              && Asked(s, h, at) == Ok((index, id))
              && (if Given(indexKey) then IndexReads(s, h, indexKey.value, index) else index == at.index)
              && (if Given(idKey) then IdReads(s, h, idKey.value, id) else id == at.id))
  {
    var idKey, indexKey := at.idFromState, at.indexFromState;
    if (Given(idKey) ==> Readable(h.authority, idKey.value)) && (Given(indexKey) ==> Readable(h.authority, indexKey.value)) {
      var (index, id) := Asked(s, h, at).value;
      assert Asked(s, h, at) == Ok((index, id));
      assert if Given(indexKey) then IndexReads(s, h, indexKey.value, index) else index == at.index;
      assert if Given(idKey) then IdReads(s, h, idKey.value, id) else id == at.id;
    }
  }

  predicate IndexReads(s: Store, h: Host, key: string, index: Option<int>) {
    var n := h.number(s.heap, Get(s.keys, key));
    if index.Some? then n == Some(index.value as real) else n.None? || n.value != n.value.Floor as real
  }

  predicate IdReads(s: Store, h: Host, key: string, id: Option<string>) {
    var v := Get(s.keys, key);
    if v == Undefined || v == Null then id == None else id == Some(h.text(s.heap, v))
  }

  // ------------------------------------------------------------ refusals

  /** What may be written and read: the declared keys, either list standing for both where there is one
      only, and nothing without a declaration. */
  lemma ScopeIsDeclared(readable: set<string>, writable: set<string>, key: string)
    ensures Writable(Bindings(readable, writable), key) <==> key in writable
    ensures Readable(Bindings(readable, writable), key) <==> key in readable
    ensures Writable(AllowedTargets(writable), key) <==> key in writable
    ensures Readable(AllowedTargets(writable), key) <==> key in writable
    ensures !Writable(Undeclared, key) && !Readable(Undeclared, key)
  {
  }

  /** An action nested too deep, or one whose target is out of scope, is refused and does nothing. */
  lemma RefusedOutOfScope(a: Action, s: Store, h: Host, depth: int)
    ensures depth > 12 ==> DoesNothing(s, Applied(a, s, h, depth), [NestedTooDeep])
    ensures depth <= 12 && !a.SubmitToAgent? && !Writable(h.authority, a.target) ==>
              DoesNothing(s, Applied(a, s, h, depth), [OutOfScope(a.target)])
  {
  }

  lemma FillStopsAt(keys: Fields, h: Host, heap: Heap, seed: Fields, entries: Entries, key: string, u: string, more: Entries)
    requires PlainEntries(h, entries) && !Readable(h.authority, u)
    ensures Filled(keys, h, heap, seed, entries + [(key, u)] + more) == (heap, Err(OutOfScope(u)))
  {
    var o := PlainEntriesFill(keys, h, heap, seed, entries);
    var upTo := entries + [(key, u)];
    assert upTo[..|upTo| - 1] == entries;
    assert Filled(keys, h, heap, seed, upTo) == (heap, Err(OutOfScope(u)));
    assert (upTo + more)[..|upTo|] == upTo;
    RefusalStays(keys, h, heap, seed, upTo + more, |upTo|);
  }

  /** A key that may not be read is reported, and nothing is appended. */
  lemma FirstUnreadableIsReported(s: Store, h: Host, target: string, item: Json, entries: Entries, key: string, u: string, more: Entries)
    requires Writable(h.authority, target) && PlainEntries(h, entries) && !Readable(h.authority, u)
    ensures DoesNothing(s, Applied(AppendItem(target, item, Some(entries + [(key, u)] + more)), s, h, 0), [OutOfScope(u)])
  {
    FillStopsAt(s.keys, h, s.heap, if item.Obj? then item.fields else map[], entries, key, u, more);
  }

  lemma {:induction false} UnreadableListed(h: Host, fields: seq<string>, f: string)
    ensures OutOfScope(f) in Unreadable(h, fields) <==> f in fields && !Readable(h.authority, f)
    decreases |fields|
  {
    if fields != [] {
      var init, last := fields[..|fields| - 1], fields[|fields| - 1];
      UnreadableListed(h, init, f);
      assert f in fields <==> f in init || f == last;
    }
  }

  lemma {:induction false} OnlyScopeErrors(h: Host, fields: seq<string>)
    ensures forall e :: e in Unreadable(h, fields) ==> e.OutOfScope?
    decreases |fields|
  {
    if fields != [] { OnlyScopeErrors(h, fields[..|fields| - 1]); }
  }

  /** A submission goes out exactly when the host takes one, fields or a payload are given, every field is
      readable and the payload passes; otherwise it does nothing, and names each unreadable field. */
  lemma SubmissionGoesOutExactly(s: Store, h: Host, includeFields: Option<seq<string>>, payload: Option<Fields>)
    ensures var r := Submitted(s, h, includeFields, payload);
            var fields := if includeFields.Some? then includeFields.value else [];
      && (r.errors == [] <==>
            && h.canSubmit && (includeFields.Some? || payload.Some?)
            && (forall f :: f in fields ==> Readable(h.authority, f))
            && (payload.Some? ==> h.sane(payload.value)))
      && (r.errors == [] ==> |r.sent| == 1 && r.store == s && r.changedKeys == [])
      && (r.errors != [] ==> DoesNothing(s, r, r.errors))
      && (h.canSubmit && includeFields.Some? ==>
            forall f :: OutOfScope(f) in r.errors <==> f in fields && !Readable(h.authority, f))
  {
    var fields := if includeFields.Some? then includeFields.value else [];
    forall f ensures OutOfScope(f) in Unreadable(h, fields) <==> f in fields && !Readable(h.authority, f) {
      UnreadableListed(h, fields, f);
    }
    OnlyScopeErrors(h, fields);
    if Unreadable(h, fields) != [] { assert Unreadable(h, fields)[0] in Unreadable(h, fields); }
  }

  // ------------------------------------------------------------ names that no path may use

  /** A path is refused, and nothing changes, exactly when it is too long or too deep or one of its segments
      is empty, reserved or not an identifier; or when a value on the way blocks it. */
  lemma PathsAreChecked(heap: Heap, o: Fields, path: string, value: Json)
    ensures path == "" || |path| > 64 || |Segments(path)| > 4 ==> SetDottedPath(heap, o, path, value) == (false, heap, o)
    ensures forall seg :: seg in Segments(path) && seg in {"", "__proto__", "constructor", "prototype"} ==>
              SetDottedPath(heap, o, path, value) == (false, heap, o)
    ensures forall seg, i: nat :: seg in Segments(path) && i < |seg| && !Wordly(seg[i], i) ==>
              SetDottedPath(heap, o, path, value) == (false, heap, o)
  {
    forall seg | seg in Segments(path) && ValidPath(path) ensures ValidSegment(seg) {
      var i: nat :| i < |Segments(path)| && Segments(path)[i] == seg;
    }
  }

  /** A letter or underscore, or after the first place a digit. */
  predicate Wordly(c: char, i: nat) {
    'a' <= c <= 'z' || 'A' <= c <= 'Z' || c == '_' || (i > 0 && '0' <= c <= '9')
  }

  predicate Allowed(seg: string) {
    seg !in {"", "__proto__", "constructor", "prototype"} && forall i: nat :: i < |seg| ==> Wordly(seg[i], i)
  }

  lemma AllowedIsValid(seg: string)
    requires Allowed(seg)
    ensures ValidSegment(seg)
  {
    assert Wordly(seg[0], 0);
    forall i | 1 <= i < |seg| ensures IsLetter(seg[i]) || '0' <= seg[i] <= '9' {
      assert Wordly(seg[i], i);
    }
  }

  /** And every other path into an empty object is written. */
  lemma OtherPathsAreWritten(heap: Heap, path: string, value: Json)
    requires path != "" && |path| <= 64 && |Segments(path)| <= 4 && forall seg :: seg in Segments(path) ==> Allowed(seg)
    ensures SetDottedPath(heap, map[], path, value).0
  {
    var segments := Segments(path);
    forall i: nat | i < |segments| ensures ValidSegment(segments[i]) {
      assert segments[i] in segments;
      AllowedIsValid(segments[i]);
    }
    EmptyNeverBlocks(segments, value);
    FailureIsClean(map[], segments, value);
    EmptyHasNoCrossing(heap, segments);
  }

  lemma EmptyHasNoCrossing(heap: Heap, segments: seq<string>)
    requires segments != []
    ensures Crossing(heap, map[], segments).None?
  {
  }
}
