/** The local actions of a tool and the two drivers that run lists of them (src/lib/actions.ts).

    Filling an object from state stores references: the object under a state key may then be reached from
    several places, and a later entry may write into it. Only objects held by a state key can be shared and
    then written this way, so these have a record in a heap; arrays, and objects inside them, are never
    written in place. Cloning the state keeps what is shared inside it, so the records keep their addresses. */
module Actions {
  import opened Common
  import opened DottedPaths

  /** Pairs of a path and a state key, in the order of the source object. */
  type Entries = seq<(string, string)>

  /** How an action names an item of a list. */
  datatype Locator = Locator(index: Option<int>, id: Option<string>, indexFromState: Option<string>, idFromState: Option<string>)

  datatype Action =
    | SetValue(target: string, value: Json)
    | Toggle(target: string)
    | Increment(target: string, amount: Option<real>)
    | Decrement(target: string, amount: Option<real>)
    | Reset(target: string, value: Json)
    | AppendItem(target: string, item: Json, itemFromState: Option<Entries>)
    | RemoveItem(target: string, at: Locator)
    | UpdateItem(target: string, at: Locator, patch: Option<Fields>, patchFromState: Option<Entries>)
    | SelectTab(target: string, tabId: string)
    | SubmitToAgent(includeFields: Option<seq<string>>, payload: Option<Fields>)

  datatype Error =
    | OutOfScope(key: string)
    | BadKey(key: string)
    | SubmitUnavailable
    | FieldsNotDeclared
    | PayloadRefused
    | NestedTooDeep
    | TooManyActions

  datatype Authority =
    | Bindings(readable: set<string>, writable: set<string>)
    | AllowedTargets(targets: set<string>)
    | Undeclared

  /** What the host provides. `number` and `text` are the conversions `Number` (absent unless finite) and
      `String`; `sane` says that a static payload passes the size and name checks. */
  datatype Host = Host(
    authority: Authority, canSubmit: bool,
    number: (Heap, Json) -> Option<real>, text: (Heap, Json) -> string, sane: Fields -> bool)

  /** A tool's state: its keys, the records its objects live in, and the next free address. */
  datatype Store = Store(keys: Fields, heap: Heap, next: nat)

  datatype Outcome = Outcome(store: Store, errors: seq<Error>, changedKeys: seq<string>, sent: seq<Fields>)

  const MAX_ACTION_DEPTH: nat := 12

  predicate Writable(a: Authority, key: string) {
    match a
    case Bindings(_, writable) => key in writable
    case AllowedTargets(targets) => key in targets
    case Undeclared => false
  }

  predicate Readable(a: Authority, key: string) {
    match a
    case Bindings(readable, _) => key in readable
    case AllowedTargets(targets) => key in targets
    case Undeclared => false
  }

  function Failed(s: Store, errors: seq<Error>): Outcome { Outcome(s, errors, [], []) }

  /** The key takes the value; an object gets a record of its own. */
  function Put(s: Store, key: string, v: Json): Store {
    if v.Obj? then Store(s.keys[key := Ref(s.next)], s.heap[s.next := v.fields], s.next + 1)
    else s.(keys := s.keys[key := v])
  }

  function Written(s: Store, key: string, v: Json): Outcome { Outcome(Put(s, key, v), [], [key], []) }

  predicate Truthy(v: Json) {
    match v
    case Undefined => false
    case Null => false
    case Bool(b) => b
    case Num(n) => n != 0.0
    case Str(s) => s != ""
    case _ => true
  }

  predicate Named(s: Option<string>) { s.Some? && s.value != "" }

  function ItemsOf(v: Json): seq<Json> { if v.Arr? then v.items else [] }

  function RecordOf(heap: Heap, v: Json): Option<Fields> {
    if v.Obj? then Some(v.fields) else if v.Ref? && v.addr in heap then Some(heap[v.addr]) else None
  }

  // ------------------------------------------------------------ what one action writes

  function Counter(h: Host, heap: Heap, v: Json): real {
    var n := h.number(heap, if Nullish(v) then Num(0.0) else v);
    if n.Some? then n.value else 0.0
  }

  function AmountOf(amount: Option<real>): real { if amount.Some? then amount.value else 1.0 }

  /** One entry: the value is stored by reference, at the path or else, for a plain name too long to be
      a path, under the name. */
  function FillOne(heap: Heap, o: Fields, key: string, v: Json): (bool, Heap, Fields) {
    var (ok, heap', next) := SetDottedPath(heap, o, key, v);
    if ok || !ValidSegment(key) then (ok, heap', next) else (true, heap', next[key := v])
  }

  /** The object with the entries filled in from state, in order, up to the first refusal; and the heap,
      which keeps what was written by then. */
  function Filled(keys: Fields, h: Host, heap: Heap, o: Fields, entries: Entries): (Heap, Result<Fields, Error>)
    decreases |entries|
  {
    if entries == [] then (heap, Ok(o))
    else
      var (heap, r) := Filled(keys, h, heap, o, entries[..|entries| - 1]);
      match r
      case Err(e) => (heap, r)
      case Ok(o) =>
        var (key, stateKey) := entries[|entries| - 1];
        if !Readable(h.authority, stateKey) then (heap, Err(OutOfScope(stateKey)))
        else
          var (ok, heap, next) := FillOne(heap, o, key, Get(keys, stateKey));
          (heap, if ok then Ok(next) else Err(BadKey(key)))
  }

  function LocatedId(s: Store, h: Host, at: Locator): Result<Option<string>, Error> {
    if !Named(at.idFromState) then Ok(at.id)
    else if !Readable(h.authority, at.idFromState.value) then Err(OutOfScope(at.idFromState.value))
    else
      var v := Get(s.keys, at.idFromState.value);
      Ok(if Nullish(v) then None else Some(h.text(s.heap, v)))
  }

  function LocatedIndex(s: Store, h: Host, at: Locator): Result<Option<int>, Error> {
    if !Named(at.indexFromState) then Ok(at.index)
    else if !Readable(h.authority, at.indexFromState.value) then Err(OutOfScope(at.indexFromState.value))
    else
      var n := h.number(s.heap, Get(s.keys, at.indexFromState.value));
      Ok(if n.Some? && n.value == n.value.Floor as real then Some(n.value.Floor) else None)
  }

  /** Which index or id the action asks for, the id being resolved first. */
  function Asked(s: Store, h: Host, at: Locator): Result<(Option<int>, Option<string>), Error> {
    match LocatedId(s, h, at)
    case Err(e) => Err(e)
    case Ok(id) =>
      match LocatedIndex(s, h, at)
      case Err(e) => Err(e)
      case Ok(index) => Ok((index, id))
  }

  predicate HasId(h: Host, heap: Heap, item: Json, id: string) {
    var record := RecordOf(heap, item);
    record.Some? && "id" in record.value && h.text(heap, record.value["id"]) == id
  }

  /** Index of the first item with the id, or -1. */
  function FirstWithId(h: Host, heap: Heap, items: seq<Json>, id: string): (k: int)
    ensures -1 <= k < |items|
    ensures k >= 0 ==> HasId(h, heap, items[k], id)
    ensures forall i: nat :: i < (if k >= 0 then k else |items|) ==> !HasId(h, heap, items[i], id)
  {
    if items == [] then -1
    else if HasId(h, heap, items[0], id) then 0
    else
      var k := FirstWithId(h, heap, items[1..], id);
      assert forall i: nat :: 0 < i < |items| ==> items[i] == items[1..][i - 1];
      if k < 0 then -1 else k + 1
  }

  function ItemIndex(h: Host, heap: Heap, items: seq<Json>, asked: (Option<int>, Option<string>)): int {
    if asked.0.Some? then asked.0.value else if asked.1.None? then -1 else FirstWithId(h, heap, items, asked.1.value)
  }

  function Decimal(n: nat): string {
    if n < 10 then ["0123456789"[n]] else Decimal(n / 10) + ["0123456789"[n % 10]]
  }

  /** The own entries of an array or object, as spreading it gives them. */
  function SpreadItems(items: seq<Json>): Fields {
    if items == [] then map[] else SpreadItems(items[..|items| - 1])[Decimal(|items| - 1) := items[|items| - 1]]
  }

  function Spread(heap: Heap, v: Json): Option<Fields> {
    if v.Arr? then Some(SpreadItems(v.items)) else RecordOf(heap, v)
  }

  function Appended(s: Store, h: Host, items: seq<Json>, item: Json, from: Option<Entries>): (Heap, Result<Json, Error>) {
    if from.None? then (s.heap, Ok(Arr(items + [item])))
    else
      var (heap, r) := Filled(s.keys, h, s.heap, if item.Obj? then item.fields else map[], from.value);
      (heap, match r
             case Err(e) => Err(e)
             case Ok(o) => Ok(Arr(items + [Obj(o)])))
  }

  function Removed(s: Store, h: Host, items: seq<Json>, at: Locator): Result<Option<Json>, Error> {
    match Asked(s, h, at)
    case Err(e) => Err(e)
    case Ok(asked) =>
      var i := ItemIndex(h, s.heap, items, asked);
      Ok(if 0 <= i < |items| then Some(Arr(items[..i] + items[i + 1..])) else None)
  }

  function PatchOf(s: Store, h: Host, patch: Option<Fields>, from: Option<Entries>): (Heap, Result<Option<Fields>, Error>) {
    if from.None? then (s.heap, Ok(patch))
    else
      var (heap, r) := Filled(s.keys, h, s.heap, if patch.Some? then patch.value else map[], from.value);
      (heap, match r
             case Err(e) => Err(e)
             case Ok(o) => Ok(Some(o)))
  }

  /** The list with the patch spread over the asked item, if there is one and it is an object. */
  function Patched(h: Host, heap: Heap, items: seq<Json>, asked: (Option<int>, Option<string>), patch: Option<Fields>)
    : Option<Json>
  {
    var i := ItemIndex(h, heap, items, asked);
    if 0 <= i < |items| && Spread(heap, items[i]).Some? && patch.Some? then
      Some(Arr(items[i := Obj(Spread(heap, items[i]).value + patch.value)]))
    else None
  }

  function Updated(s: Store, h: Host, items: seq<Json>, at: Locator, patch: Option<Fields>, from: Option<Entries>)
    : (Heap, Result<Option<Json>, Error>)
  {
    match Asked(s, h, at)
    case Err(e) => (s.heap, Err(e))
    case Ok(asked) =>
      var (heap, p) := PatchOf(s, h, patch, from);
      (heap, match p
             case Err(e) => Err(e)
             case Ok(p) => Ok(Patched(h, heap, items, asked, p)))
  }

  /** What the action puts at its target, if anything, and the heap by then. */
  function NewValue(a: Action, s: Store, h: Host): (Heap, Result<Option<Json>, Error>)
    requires !a.SubmitToAgent?
  {
    var now := Get(s.keys, a.target);
    match a
    case SetValue(_, value) => (s.heap, Ok(Some(value)))
    case Toggle(_) => (s.heap, Ok(Some(Bool(!Truthy(now)))))
    case Increment(_, amount) => (s.heap, Ok(Some(Num(Counter(h, s.heap, now) + AmountOf(amount)))))
    case Decrement(_, amount) => (s.heap, Ok(Some(Num(Counter(h, s.heap, now) - AmountOf(amount)))))
    case Reset(_, value) => (s.heap, Ok(Some(if Nullish(value) then Num(0.0) else value)))
    case SelectTab(_, tabId) => (s.heap, Ok(Some(Str(tabId))))
    case AppendItem(_, item, from) =>
      var (heap, r) := Appended(s, h, ItemsOf(now), item, from);
      (heap, match r
             case Err(e) => Err(e)
             case Ok(v) => Ok(Some(v)))
    case RemoveItem(_, at) => (s.heap, Removed(s, h, ItemsOf(now), at))
    case UpdateItem(_, at, patch, from) => Updated(s, h, ItemsOf(now), at, patch, from)
  }

  // ------------------------------------------------------------ what a submission sends

  function Unreadable(h: Host, fields: seq<string>): seq<Error> {
    if fields == [] then []
    else
      Unreadable(h, fields[..|fields| - 1])
      + (if Readable(h.authority, fields[|fields| - 1]) then [] else [OutOfScope(fields[|fields| - 1])])
  }

  function ValuesOf(s: Fields, fields: seq<string>): Fields {
    if fields == [] then map[]
    else ValuesOf(s, fields[..|fields| - 1])[fields[|fields| - 1] := Get(s, fields[|fields| - 1])]
  }

  function Submitted(s: Store, h: Host, includeFields: Option<seq<string>>, payload: Option<Fields>): Outcome {
    if !h.canSubmit then Failed(s, [SubmitUnavailable])
    else if includeFields.None? && payload.None? then Failed(s, [FieldsNotDeclared])
    else
      var fields := if includeFields.Some? then includeFields.value else [];
      if Unreadable(h, fields) != [] then Failed(s, Unreadable(h, fields))
      else if payload.Some? && !h.sane(payload.value) then Failed(s, [PayloadRefused])
      else
        Outcome(s, [], [], [(if payload.Some? then payload.value else map[]) + ValuesOf(s.keys, fields)])
  }

  /** One action: state, errors, changed keys and what was sent. */
  function Applied(a: Action, s: Store, h: Host, depth: int): Outcome {
    if depth > MAX_ACTION_DEPTH then Failed(s, [NestedTooDeep])
    else if a.SubmitToAgent? then Submitted(s, h, a.includeFields, a.payload)
    else if !Writable(h.authority, a.target) then Failed(s, [OutOfScope(a.target)])
    else
      var (heap, r) := NewValue(a, s, h);
      var s := s.(heap := heap);
      match r
      case Err(e) => Failed(s, [e])
      case Ok(None) => Failed(s, [])
      case Ok(Some(v)) => Written(s, a.target, v)
  }

  // ------------------------------------------------------------ the interpreter as it runs

  method Fill(keys: Fields, h: Host, heap0: Heap, o: Fields, entries: Entries) returns (heap: Heap, r: Result<Fields, Error>)
    ensures (heap, r) == Filled(keys, h, heap0, o, entries)
  {
    var constructed, i := o, 0;
    heap := heap0;
    while i < |entries|
      invariant i <= |entries| && Filled(keys, h, heap0, o, entries[..i]) == (heap, Ok(constructed))
    {
      var (key, stateKey) := entries[i];
      assert entries[..i + 1][..i] == entries[..i];
      if !Readable(h.authority, stateKey) {
        r := Err(OutOfScope(stateKey));
        RefusalStays(keys, h, heap0, o, entries, i + 1);
        return;
      }
      var ok;
      ok, heap, constructed := WriteDottedPath(heap, constructed, key, Get(keys, stateKey));
      if !ok {
        if !ValidSegment(key) {
          r := Err(BadKey(key));
          RefusalStays(keys, h, heap0, o, entries, i + 1);
          return;
        }
        constructed := constructed[key := Get(keys, stateKey)];
      }
      i := i + 1;
    }
    assert entries[..i] == entries;
    r := Ok(constructed);
  }

  /** After a refusal nothing more is filled. */
  lemma {:induction false} RefusalStays(keys: Fields, h: Host, heap: Heap, o: Fields, entries: Entries, n: nat)
    requires n <= |entries| && Filled(keys, h, heap, o, entries[..n]).1.Err?
    ensures Filled(keys, h, heap, o, entries) == Filled(keys, h, heap, o, entries[..n])
    decreases |entries|
  {
    if n == |entries| {
      assert entries[..n] == entries;
    } else {
      assert entries[..|entries| - 1][..n] == entries[..n];
      RefusalStays(keys, h, heap, o, entries[..|entries| - 1], n);
    }
  }

  method FindItemIndex(h: Host, heap: Heap, items: seq<Json>, index: Option<int>, id: Option<string>) returns (k: int)
    ensures k == ItemIndex(h, heap, items, (index, id))
  {
    if index.Some? { return index.value; }
    if id.None? { return -1; }
    k := 0;
    while k < |items|
      invariant 0 <= k <= |items| && forall i: nat :: i < k ==> !HasId(h, heap, items[i], id.value)
    {
      if HasId(h, heap, items[k], id.value) { return; }
      k := k + 1;
    }
    k := -1;
  }

  method Ask(s: Store, h: Host, at: Locator) returns (r: Result<(Option<int>, Option<string>), Error>)
    ensures r == Asked(s, h, at)
  {
    var id, index := at.id, at.index;
    if Named(at.idFromState) {
      if !Readable(h.authority, at.idFromState.value) { return Err(OutOfScope(at.idFromState.value)); }
      var v := Get(s.keys, at.idFromState.value);
      id := if Nullish(v) then None else Some(h.text(s.heap, v));
    }
    if Named(at.indexFromState) {
      if !Readable(h.authority, at.indexFromState.value) { return Err(OutOfScope(at.indexFromState.value)); }
      var n := h.number(s.heap, Get(s.keys, at.indexFromState.value));
      index := if n.Some? && n.value == n.value.Floor as real then Some(n.value.Floor) else None;
    }
    r := Ok((index, id));
  }

  method Append(a: Action, s: Store, h: Host) returns (r: Outcome)
    requires a.AppendItem? && Writable(h.authority, a.target)
    ensures r == Applied(a, s, h, 0)
  {
    var item, state := a.item, s;
    if a.itemFromState.Some? {
      var heap, constructed := Fill(s.keys, h, s.heap, if item.Obj? then item.fields else map[], a.itemFromState.value);
      state := s.(heap := heap);
      if constructed.Err? { return Failed(state, [constructed.error]); }
      item := Obj(constructed.value);
    }
    r := Written(state, a.target, Arr(ItemsOf(Get(s.keys, a.target)) + [item]));
  }

  method Remove(a: Action, s: Store, h: Host) returns (r: Outcome)
    requires a.RemoveItem? && Writable(h.authority, a.target)
    ensures r == Applied(a, s, h, 0)
  {
    var items := ItemsOf(Get(s.keys, a.target));
    var asked := Ask(s, h, a.at);
    if asked.Err? { return Failed(s, [asked.error]); }
    var idx := FindItemIndex(h, s.heap, items, asked.value.0, asked.value.1);
    if 0 <= idx < |items| {
      r := Written(s, a.target, Arr(items[..idx] + items[idx + 1..]));
    } else {
      r := Failed(s, []);
    }
  }

  method Update(a: Action, s: Store, h: Host) returns (r: Outcome)
    requires a.UpdateItem? && Writable(h.authority, a.target)
    ensures r == Applied(a, s, h, 0)
  {
    var asked := Ask(s, h, a.at);
    if asked.Err? { return Failed(s, [asked.error]); }
    var patch, state := a.patch, s;
    if a.patchFromState.Some? {
      var heap, constructed := Fill(s.keys, h, s.heap, if patch.Some? then patch.value else map[], a.patchFromState.value);
      state := s.(heap := heap);
      if constructed.Err? { return Failed(state, [constructed.error]); }
      patch := Some(constructed.value);
    }
    var items := ItemsOf(Get(s.keys, a.target));
    var idx := FindItemIndex(h, state.heap, items, asked.value.0, asked.value.1);
    r := Failed(state, []);
    if 0 <= idx < |items| {
      var current := Spread(state.heap, items[idx]);
      if current.Some? && patch.Some? {
        r := Written(state, a.target, Arr(items[idx := Obj(current.value + patch.value)]));
      }
    }
  }

  method Submit(s: Store, h: Host, includeFields: Option<seq<string>>, payload: Option<Fields>) returns (r: Outcome)
    ensures r == Submitted(s, h, includeFields, payload)
  {
    if !h.canSubmit { return Failed(s, [SubmitUnavailable]); }
    if includeFields.None? && payload.None? { return Failed(s, [FieldsNotDeclared]); }
    var fields := if includeFields.Some? then includeFields.value else [];
    var values: Fields, errors: seq<Error>, i := map[], [], 0;
    while i < |fields|
      invariant i <= |fields| && errors == Unreadable(h, fields[..i])
      invariant errors == [] ==> values == ValuesOf(s.keys, fields[..i])
    {
      assert fields[..i + 1][..i] == fields[..i];
      if Readable(h.authority, fields[i]) {
        values := values[fields[i] := Get(s.keys, fields[i])];
      } else {
        errors := errors + [OutOfScope(fields[i])];
      }
      i := i + 1;
    }
    assert fields[..i] == fields;
    if errors != [] { return Failed(s, errors); }
    if payload.Some? {
      if !h.sane(payload.value) { return Failed(s, [PayloadRefused]); }
      values := payload.value + values;
    } else {
      assert map[] + values == values;
    }
    r := Outcome(s, [], [], [values]);
  }

  method ApplyAction(a: Action, s: Store, h: Host, depth: int) returns (r: Outcome)
    ensures r == Applied(a, s, h, depth)
  {
    if depth > MAX_ACTION_DEPTH { return Failed(s, [NestedTooDeep]); }
    if a.SubmitToAgent? {
      r := Submit(s, h, a.includeFields, a.payload);
      return;
    }
    if !Writable(h.authority, a.target) { return Failed(s, [OutOfScope(a.target)]); }
    var now := Get(s.keys, a.target);
    match a
    case SetValue(target, value) => r := Written(s, target, value);
    case Toggle(target) => r := Written(s, target, Bool(!Truthy(now)));
    case Increment(target, amount) => r := Written(s, target, Num(Counter(h, s.heap, now) + AmountOf(amount)));
    case Decrement(target, amount) => r := Written(s, target, Num(Counter(h, s.heap, now) - AmountOf(amount)));
    case Reset(target, value) => r := Written(s, target, if Nullish(value) then Num(0.0) else value);
    case SelectTab(target, tabId) => r := Written(s, target, Str(tabId));
    case AppendItem(_, _, _) => r := Append(a, s, h);
    case RemoveItem(_, _) => r := Remove(a, s, h);
    case UpdateItem(_, _, _, _) => r := Update(a, s, h);
  }

  // ------------------------------------------------------------ the drivers

  function Then(first: Outcome, rest: Outcome): Outcome {
    Outcome(rest.store, first.errors + rest.errors, first.changedKeys + rest.changedKeys, first.sent + rest.sent)
  }

  /** Each key once, where it first occurs. */
  function Unique(keys: seq<string>): seq<string> {
    if keys == [] then []
    else
      var init, last := Unique(keys[..|keys| - 1]), keys[|keys| - 1];
      if last in init then init else init + [last]
  }

  function Reported(r: Outcome): Outcome { r.(changedKeys := Unique(r.changedKeys)) }

  /** Runs every action, whatever the earlier ones reported. */
  function SyncRun(actions: seq<Action>, s: Store, h: Host, depth: int): Outcome
    decreases |actions|
  {
    if actions == [] then Failed(s, [])
    else if depth + 1 > MAX_ACTION_DEPTH then Failed(s, [TooManyActions])
    else
      var r := Applied(actions[0], s, h, depth + 1);
      Then(r, SyncRun(actions[1..], r.store, h, depth + 1))
  }

  /** Stops at the first action that reports an error. */
  function AsyncRun(actions: seq<Action>, s: Store, h: Host, depth: int): Outcome
    decreases |actions|
  {
    if actions == [] then Failed(s, [])
    else if depth + 1 > MAX_ACTION_DEPTH then Failed(s, [TooManyActions])
    else
      var r := Applied(actions[0], s, h, depth + 1);
      if r.errors != [] then r else Then(r, AsyncRun(actions[1..], r.store, h, depth + 1))
  }

  /** The sync loop with the outcome so far. */
  function SyncFrom(actions: seq<Action>, r: Outcome, h: Host, depth: int): Outcome
    decreases |actions|
  {
    if actions == [] then r
    else if depth + 1 > MAX_ACTION_DEPTH then Then(r, Failed(r.store, [TooManyActions]))
    else SyncFrom(actions[1..], Then(r, Applied(actions[0], r.store, h, depth + 1)), h, depth + 1)
  }

  /** The async loop with the outcome so far. */
  function AsyncFrom(actions: seq<Action>, r: Outcome, h: Host, depth: int): Outcome
    decreases |actions|
  {
    if actions == [] then r
    else if depth + 1 > MAX_ACTION_DEPTH then Then(r, Failed(r.store, [TooManyActions]))
    else
      var result := Applied(actions[0], r.store, h, depth + 1);
      if result.errors != [] then Then(r, result)
      else AsyncFrom(actions[1..], Then(r, result), h, depth + 1)
  }

  lemma ThenAssociates(a: Outcome, b: Outcome, c: Outcome)
    ensures Then(a, Then(b, c)) == Then(Then(a, b), c)
  {
  }

  lemma ThenNothing(a: Outcome, s: Store)
    ensures Then(a, Failed(a.store, [])) == a && Then(Failed(s, []), a) == a
  {
  }

  lemma {:induction false} SyncFromIs(actions: seq<Action>, r: Outcome, h: Host, depth: int)
    ensures SyncFrom(actions, r, h, depth) == Then(r, SyncRun(actions, r.store, h, depth))
    decreases |actions|
  {
    ThenNothing(r, r.store);
    if actions != [] && depth + 1 <= MAX_ACTION_DEPTH {
      var result := Applied(actions[0], r.store, h, depth + 1);
      SyncFromIs(actions[1..], Then(r, result), h, depth + 1);
      ThenAssociates(r, result, SyncRun(actions[1..], result.store, h, depth + 1));
    }
  }

  lemma {:induction false} AsyncFromIs(actions: seq<Action>, r: Outcome, h: Host, depth: int)
    ensures AsyncFrom(actions, r, h, depth) == Then(r, AsyncRun(actions, r.store, h, depth))
    decreases |actions|
  {
    ThenNothing(r, r.store);
    if actions != [] && depth + 1 <= MAX_ACTION_DEPTH {
      var result := Applied(actions[0], r.store, h, depth + 1);
      AsyncFromIs(actions[1..], Then(r, result), h, depth + 1);
      ThenAssociates(r, result, AsyncRun(actions[1..], result.store, h, depth + 1));
    }
  }

  method ApplyActions(actions: seq<Action>, s: Store, h: Host, depth: int) returns (r: Outcome)
    ensures r == Reported(SyncRun(actions, s, h, depth))
  {
    r := Failed(s, []);
    SyncFromIs(actions, r, h, depth);
    ThenNothing(SyncRun(actions, s, h, depth), s);
    var d, i := depth, 0;
    while i < |actions|
      invariant i <= |actions| && SyncFrom(actions[i..], r, h, d) == SyncRun(actions, s, h, depth)
    {
      d := d + 1;
      if d > MAX_ACTION_DEPTH {
        r := Then(r, Failed(r.store, [TooManyActions]));
        break;
      }
      var result := ApplyAction(actions[i], r.store, h, d);
      assert actions[i..][1..] == actions[i + 1..];
      r := Then(r, result);
      i := i + 1;
    }
    var keys := Deduplicate(r.changedKeys);
    r := r.(changedKeys := keys);
  }

  method Deduplicate(keys: seq<string>) returns (once: seq<string>)
    ensures once == Unique(keys)
  {
    once := [];
    var i := 0;
    while i < |keys|
      invariant i <= |keys| && once == Unique(keys[..i])
    {
      assert keys[..i + 1][..i] == keys[..i];
      if keys[i] !in once { once := once + [keys[i]]; }
      i := i + 1;
    }
    assert keys[..i] == keys;
  }

  method ApplyActionsAsync(actions: seq<Action>, s: Store, h: Host, depth: int) returns (r: Outcome)
    ensures r == Reported(AsyncRun(actions, s, h, depth))
  {
    r := Failed(s, []);
    AsyncFromIs(actions, r, h, depth);
    ThenNothing(AsyncRun(actions, s, h, depth), s);
    var d, i := depth, 0;
    while i < |actions|
      invariant i <= |actions| && AsyncFrom(actions[i..], r, h, d) == AsyncRun(actions, s, h, depth)
    {
      d := d + 1;
      if d > MAX_ACTION_DEPTH {
        r := Then(r, Failed(r.store, [TooManyActions]));
        break;
      }
      var result := ApplyAction(actions[i], r.store, h, d);
      assert actions[i..][1..] == actions[i + 1..];
      r := Then(r, result);
      if result.errors != [] { break; }
      i := i + 1;
    }
    var keys := Deduplicate(r.changedKeys);
    r := r.(changedKeys := keys);
  }
}
