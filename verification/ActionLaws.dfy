/** What local actions can touch, and how the two drivers relate (src/lib/actions.ts). */
module ActionLaws {
  import opened Common
  import opened DottedPaths
  import opened Actions
  import opened ActionObjects

  // ------------------------------------------------------------ one action

  /** Nothing changed outside the writable keys, every change is reported, and every object that was there
      is as it was, so a key that is not reported also reads as before all the way down. */
  ghost predicate Framed(before: Store, r: Outcome, h: Host) {
    && (forall k :: k in r.changedKeys ==> Writable(h.authority, k))
    && (forall k :: k !in r.changedKeys ==>
          (k in r.store.keys <==> k in before.keys) && Get(r.store.keys, k) == Get(before.keys, k))
    && ObjectsKept(before.heap, r.store.heap)
  }

  /** Whatever it fills, an action changes the value of its reported key only. */
  lemma KeysAreFramed(a: Action, s: Store, h: Host, depth: int)
    ensures var r := Applied(a, s, h, depth);
            && (forall k :: k in r.changedKeys ==> Writable(h.authority, k))
            && (forall k :: k !in r.changedKeys ==> (k in r.store.keys <==> k in s.keys) && Get(r.store.keys, k) == Get(s.keys, k))
            && (r.errors != [] ==> r == Failed(s.(heap := r.store.heap), r.errors))
  {
  }

  /** An action that acts separately and reports an error has changed and sent nothing; any such action
      stays in its scope. */
  lemma ActionIsAtomic(a: Action, s: Store, h: Host, depth: int)
    requires Valid(s) && Defined(a) && ActsSeparately(a, s, h)
    ensures var r := Applied(a, s, h, depth);
            (r.errors != [] ==> r == Failed(s, r.errors)) && Framed(s, r, h)
  {
    KeysAreFramed(a, s, h, depth);
    if depth <= MAX_ACTION_DEPTH {
      HeapKeptExactly(a, s, h);
      assert HeapOf(a, s.(heap := s.heap), h) == s.heap;
      ObjectsOfAction(a, s, h, depth);
      if !a.SubmitToAgent? && Writable(h.authority, a.target) { HeapOfAction(a, s, h); }
    }
  }

  lemma {:induction false} UnreadableFields(h: Host, fields: seq<string>)
    ensures Unreadable(h, fields) == [] <==> forall f :: f in fields ==> Readable(h.authority, f)
    decreases |fields|
  {
    if fields != [] {
      var init, last := fields[..|fields| - 1], fields[|fields| - 1];
      UnreadableFields(h, init);
      assert forall f :: f in fields <==> f in init || f == last;
    }
  }

  lemma {:induction false} ValuesAreFields(s: Fields, fields: seq<string>)
    ensures forall k :: k in ValuesOf(s, fields) <==> k in fields
    ensures forall k :: k in fields ==> ValuesOf(s, fields)[k] == Get(s, k)
    decreases |fields|
  {
    if fields != [] {
      var init, last := fields[..|fields| - 1], fields[|fields| - 1];
      ValuesAreFields(s, init);
      assert forall f :: f in fields <==> f in init || f == last;
    }
  }

  /** A submission sends exactly the declared fields, all readable, with their values in state, and what
      the static payload adds to them. */
  lemma SubmissionIsDeclared(s: Store, h: Host, includeFields: Option<seq<string>>, payload: Option<Fields>)
    ensures var r := Submitted(s, h, includeFields, payload);
            var fields := if includeFields.Some? then includeFields.value else [];
            r.errors == [] ==>
              && |r.sent| == 1
              && (forall k :: k in fields ==> Readable(h.authority, k) && k in r.sent[0] && r.sent[0][k] == Get(s.keys, k))
              && (forall k :: k in r.sent[0] && k !in fields ==>
                    payload.Some? && k in payload.value && r.sent[0][k] == payload.value[k])
              && (payload.Some? ==> forall k :: k in payload.value ==> k in r.sent[0])
  {
    var fields := if includeFields.Some? then includeFields.value else [];
    UnreadableFields(h, fields);
    ValuesAreFields(s.keys, fields);
  }

  // ------------------------------------------------------------ keys that are not readable do not matter

  /** The stores agree on everything the host lets actions read or write, and hold the same objects:
      keys that are neither may hold anything. */
  ghost predicate Agree(s: Store, t: Store, h: Host) {
    && s.heap == t.heap && s.next == t.next
    && forall k :: Readable(h.authority, k) || Writable(h.authority, k) ==> Get(s.keys, k) == Get(t.keys, k)
  }

  lemma {:induction false} FilledAgrees(s: Store, t: Store, h: Host, heap: Heap, o: Fields, entries: Entries)
    requires Agree(s, t, h)
    ensures Filled(s.keys, h, heap, o, entries) == Filled(t.keys, h, heap, o, entries)
    decreases |entries|
  {
    if entries != [] { FilledAgrees(s, t, h, heap, o, entries[..|entries| - 1]); }
  }

  lemma AskedAgrees(s: Store, t: Store, h: Host, at: Locator)
    requires Agree(s, t, h)
    ensures Asked(s, h, at) == Asked(t, h, at)
  {
  }

  lemma NewValueAgrees(a: Action, s: Store, t: Store, h: Host)
    requires !a.SubmitToAgent? && Writable(h.authority, a.target) && Agree(s, t, h)
    ensures NewValue(a, s, h) == NewValue(a, t, h)
  {
    assert Get(s.keys, a.target) == Get(t.keys, a.target);
    if EntriesOf(a).Some? { FilledAgrees(s, t, h, s.heap, SeedOf(a), EntriesOf(a).value); }
    if a.UpdateItem? || a.RemoveItem? { AskedAgrees(s, t, h, a.at); }
  }

  lemma {:induction false} ValuesAgree(s: Store, t: Store, h: Host, fields: seq<string>)
    requires Agree(s, t, h) && forall f :: f in fields ==> Readable(h.authority, f)
    ensures ValuesOf(s.keys, fields) == ValuesOf(t.keys, fields)
    decreases |fields|
  {
    if fields != [] {
      assert fields[|fields| - 1] in fields;
      ValuesAgree(s, t, h, fields[..|fields| - 1]);
    }
  }

  /** Same reports, same effects and again agreement. */
  ghost predicate SameRun(r: Outcome, q: Outcome, h: Host) {
    r.errors == q.errors && r.changedKeys == q.changedKeys && r.sent == q.sent && Agree(r.store, q.store, h)
  }

  lemma SubmissionAgrees(s: Store, t: Store, h: Host, includeFields: Option<seq<string>>, payload: Option<Fields>)
    requires Agree(s, t, h)
    ensures SameRun(Submitted(s, h, includeFields, payload), Submitted(t, h, includeFields, payload), h)
  {
    var fields := if includeFields.Some? then includeFields.value else [];
    UnreadableFields(h, fields);
    if Unreadable(h, fields) == [] { ValuesAgree(s, t, h, fields); }
  }

  lemma PutAgrees(s: Store, t: Store, h: Host, key: string, v: Json)
    requires Agree(s, t, h)
    ensures Agree(Put(s, key, v), Put(t, key, v), h)
  {
  }

  lemma ActionAgrees(a: Action, s: Store, t: Store, h: Host, depth: int)
    requires Agree(s, t, h)
    ensures SameRun(Applied(a, s, h, depth), Applied(a, t, h, depth), h)
  {
    if a.SubmitToAgent? {
      SubmissionAgrees(s, t, h, a.includeFields, a.payload);
    } else if Writable(h.authority, a.target) {
      NewValueAgrees(a, s, t, h);
      var (heap, r) := NewValue(a, s, h);
      if r.Ok? && r.value.Some? { PutAgrees(s.(heap := heap), t.(heap := heap), h, a.target, r.value.value); }
    }
  }

  /** A component's keys grant nothing: what an action list reports, changes and sends does not depend
      on any key the host declares neither readable nor writable. */
  lemma {:induction false} UndeclaredKeysDoNotMatter(actions: seq<Action>, s: Store, t: Store, h: Host, depth: int)
    requires Agree(s, t, h)
    ensures SameRun(SyncRun(actions, s, h, depth), SyncRun(actions, t, h, depth), h)
    ensures SameRun(AsyncRun(actions, s, h, depth), AsyncRun(actions, t, h, depth), h)
    decreases |actions|
  {
    if actions != [] && depth + 1 <= MAX_ACTION_DEPTH {
      ActionAgrees(actions[0], s, t, h, depth + 1);
      UndeclaredKeysDoNotMatter(actions[1..], Applied(actions[0], s, h, depth + 1).store,
                                Applied(actions[0], t, h, depth + 1).store, h, depth + 1);
    }
  }

  // ------------------------------------------------------------ whole lists

  lemma ThenFramed(s: Store, first: Outcome, rest: Outcome, h: Host)
    requires Framed(s, first, h) && Framed(first.store, rest, h)
    ensures Framed(s, Then(first, rest), h)
  {
  }

  /** Each action that there is room for acts separately when its turn comes. */
  ghost predicate AllSeparate(actions: seq<Action>, s: Store, h: Host, room: nat)
    decreases |actions|
  {
    actions == [] || room == 0 ||
    (Defined(actions[0]) && ActsSeparately(actions[0], s, h)
     && AllSeparate(actions[1..], Applied(actions[0], s, h, 0).store, h, room - 1))
  }

  lemma SeparateStep(actions: seq<Action>, s: Store, h: Host, depth: int)
    requires actions != [] && depth < MAX_ACTION_DEPTH && Valid(s) && AllSeparate(actions, s, h, Room(depth))
    ensures var r := Applied(actions[0], s, h, depth + 1);
            && r == Applied(actions[0], s, h, 0) && (r.errors != [] ==> r == Failed(s, r.errors)) && Framed(s, r, h)
            && Valid(r.store) && AllSeparate(actions[1..], r.store, h, Room(depth + 1))
  {
    ActionIsAtomic(actions[0], s, h, depth + 1);
    ActionKeepsValid(actions[0], s, h, depth + 1);
    DepthOnlyLimits(actions[0], s, h, depth + 1);
  }

  /** Neither driver changes a key that is not writable, a key it does not report, or an object that was
      there, if the actions act separately. */
  lemma {:induction false} RunsAreFramed(actions: seq<Action>, s: Store, h: Host, depth: int)
    requires Valid(s) && AllSeparate(actions, s, h, Room(depth))
    ensures Framed(s, SyncRun(actions, s, h, depth), h) && Framed(s, AsyncRun(actions, s, h, depth), h)
    decreases |actions|
  {
    if actions != [] && depth < MAX_ACTION_DEPTH {
      var r := Applied(actions[0], s, h, depth + 1);
      SeparateStep(actions, s, h, depth);
      RunsAreFramed(actions[1..], r.store, h, depth + 1);
      ThenFramed(s, r, SyncRun(actions[1..], r.store, h, depth + 1), h);
      ThenFramed(s, r, AsyncRun(actions[1..], r.store, h, depth + 1), h);
    }
  }

  /** The state after some actions, one after the other, with no limit and no driver. */
  function After(actions: seq<Action>, s: Store, h: Host): Store
    decreases |actions|
  {
    if actions == [] then s else After(actions[1..], Applied(actions[0], s, h, 0).store, h)
  }

  /** None of the actions reports an error when its turn comes. */
  predicate Clean(actions: seq<Action>, s: Store, h: Host)
    decreases |actions|
  {
    actions == [] || (Applied(actions[0], s, h, 0).errors == [] && Clean(actions[1..], Applied(actions[0], s, h, 0).store, h))
  }

  /** How many actions the nesting limit leaves room for. */
  function Room(depth: int): nat { if depth >= MAX_ACTION_DEPTH then 0 else MAX_ACTION_DEPTH - depth }

  lemma DepthOnlyLimits(a: Action, s: Store, h: Host, depth: int)
    requires depth <= MAX_ACTION_DEPTH
    ensures Applied(a, s, h, depth) == Applied(a, s, h, 0)
  {
  }

  /** Unfolding a prefix by its first action. */
  lemma PrefixStep(actions: seq<Action>, s: Store, h: Host, n: nat)
    requires 0 < n <= |actions|
    ensures var r := Applied(actions[0], s, h, 0);
            && After(actions[..n], s, h) == After(actions[1..][..n - 1], r.store, h)
            && (Clean(actions[..n], s, h) <==> r.errors == [] && Clean(actions[1..][..n - 1], r.store, h))
  {
    assert actions[..n][1..] == actions[1..][..n - 1];
  }

  lemma AsyncStep(actions: seq<Action>, s: Store, h: Host, depth: int)
    requires actions != [] && depth < MAX_ACTION_DEPTH
    ensures var r := Applied(actions[0], s, h, 0);
            var rest := AsyncRun(actions[1..], r.store, h, depth + 1);
            AsyncRun(actions, s, h, depth) == if r.errors != [] then r else Then(r, rest)
  {
    DepthOnlyLimits(actions[0], s, h, depth + 1);
  }

  /** `n` actions ran clean, and it ended there because the list, the room or the luck ran out. */
  ghost predicate CleanPrefix(actions: seq<Action>, s: Store, h: Host, room: nat, n: nat) {
    && n <= |actions| && n <= room && Clean(actions[..n], s, h)
    && (n == |actions| || n == room || !Clean(actions[..n + 1], s, h))
  }

  lemma CleanPrefixStep(actions: seq<Action>, s: Store, h: Host, room: nat, n: nat)
    requires actions != [] && room > 0 && Applied(actions[0], s, h, 0).errors == []
    requires CleanPrefix(actions[1..], Applied(actions[0], s, h, 0).store, h, room - 1, n)
    ensures CleanPrefix(actions, s, h, room, n + 1)
  {
    PrefixStep(actions, s, h, n + 1);
    if n + 1 < |actions| { PrefixStep(actions, s, h, n + 2); }
  }

  /** The async driver stops after the clean prefix of `n` actions: its keys are those the prefix leads
      to, and its objects too but for what a refused action wrote into them before it was refused. It
      reports no error exactly when the prefix is the whole list. */
  ghost predicate StopsAfter(actions: seq<Action>, s: Store, h: Host, depth: int, n: nat) {
    && CleanPrefix(actions, s, h, Room(depth), n)
    && (AsyncRun(actions, s, h, depth).errors == [] <==> n == |actions|)
    && var last := After(actions[..n], s, h);
       AsyncRun(actions, s, h, depth).store ==
         if n < |actions| && n < Room(depth) then last.(heap := HeapOf(actions[n], last, h)) else last
  }

  lemma RefusedLeaves(a: Action, s: Store, h: Host)
    requires Applied(a, s, h, 0).errors != []
    ensures Applied(a, s, h, 0).store == s.(heap := HeapOf(a, s, h))
  {
    if !a.SubmitToAgent? && Writable(h.authority, a.target) { HeapOfAction(a, s, h); }
  }

  lemma ErrorEndsTheRun(actions: seq<Action>, s: Store, h: Host, depth: int)
    requires actions != [] && depth < MAX_ACTION_DEPTH && Applied(actions[0], s, h, 0).errors != []
    ensures StopsAfter(actions, s, h, depth, 0)
  {
    AsyncStep(actions, s, h, depth);
    RefusedLeaves(actions[0], s, h);
    PrefixStep(actions, s, h, 1);
  }

  lemma CleanGoesOn(actions: seq<Action>, s: Store, h: Host, depth: int, n: nat)
    requires actions != [] && depth < MAX_ACTION_DEPTH && Applied(actions[0], s, h, 0).errors == []
    requires StopsAfter(actions[1..], Applied(actions[0], s, h, 0).store, h, depth + 1, n)
    ensures StopsAfter(actions, s, h, depth, n + 1)
  {
    AsyncStep(actions, s, h, depth);
    CleanPrefixStep(actions, s, h, Room(depth), n);
    PrefixStep(actions, s, h, n + 1);
  }

  lemma NoRoomStopsAtOnce(actions: seq<Action>, s: Store, h: Host, depth: int)
    requires actions == [] || depth >= MAX_ACTION_DEPTH
    ensures StopsAfter(actions, s, h, depth, 0)
  {
  }

  /** The async driver runs the longest clean prefix that the limit has room for. */
  lemma {:induction false} AsyncRunsTheCleanPrefix(actions: seq<Action>, s: Store, h: Host, depth: int) returns (n: nat)
    ensures StopsAfter(actions, s, h, depth, n)
    decreases |actions|
  {
    if actions == [] || depth >= MAX_ACTION_DEPTH {
      NoRoomStopsAtOnce(actions, s, h, depth);
      return 0;
    }
    var r := Applied(actions[0], s, h, 0);
    if r.errors != [] {
      ErrorEndsTheRun(actions, s, h, depth);
      return 0;
    }
    var rest := AsyncRunsTheCleanPrefix(actions[1..], r.store, h, depth + 1);
    CleanGoesOn(actions, s, h, depth, rest);
    n := rest + 1;
  }

  /** If the refused action acts separately, the state is that of the clean prefix, objects included. */
  lemma AsyncStateIsThePrefix(actions: seq<Action>, s: Store, h: Host, depth: int, n: nat)
    requires StopsAfter(actions, s, h, depth, n)
    requires n < |actions| && n < Room(depth) ==>
               Valid(After(actions[..n], s, h)) && Defined(actions[n]) && ActsSeparately(actions[n], After(actions[..n], s, h), h)
    ensures AsyncRun(actions, s, h, depth).store == After(actions[..n], s, h)
  {
    if n < |actions| && n < Room(depth) {
      var last := After(actions[..n], s, h);
      HeapKeptExactly(actions[n], last, h);
      assert last.(heap := last.heap) == last;
    }
  }

  /** The actions that report no error when their turn comes in the sync driver. */
  function Succeeding(actions: seq<Action>, s: Store, h: Host): seq<Action>
    decreases |actions|
  {
    if actions == [] then []
    else
      var r := Applied(actions[0], s, h, 0);
      (if r.errors == [] then [actions[0]] else []) + Succeeding(actions[1..], r.store, h)
  }

  lemma SucceedingStep(actions: seq<Action>, s: Store, h: Host, m: nat)
    requires 0 < m <= |actions|
    ensures var r := Applied(actions[0], s, h, 0);
            Succeeding(actions[..m], s, h)
              == (if r.errors == [] then [actions[0]] else []) + Succeeding(actions[1..][..m - 1], r.store, h)
  {
    assert actions[..m][1..] == actions[1..][..m - 1];
  }

  lemma SyncStep(actions: seq<Action>, s: Store, h: Host, depth: int)
    requires actions != [] && depth < MAX_ACTION_DEPTH
    ensures var r := Applied(actions[0], s, h, 0);
            SyncRun(actions, s, h, depth) == Then(r, SyncRun(actions[1..], r.store, h, depth + 1))
  {
    DepthOnlyLimits(actions[0], s, h, depth + 1);
  }

  lemma ConsStep(a: Action, rest: seq<Action>, s: Store, h: Host)
    requires Applied(a, s, h, 0).errors == []
    ensures After([a] + rest, s, h) == After(rest, Applied(a, s, h, 0).store, h)
    ensures Clean([a] + rest, s, h) <==> Clean(rest, Applied(a, s, h, 0).store, h)
  {
    assert ([a] + rest)[1..] == rest;
  }

  /** The sync driver ends where the clean list `run` leads. */
  predicate Skips(actions: seq<Action>, s: Store, h: Host, depth: int, run: seq<Action>) {
    SyncRun(actions, s, h, depth).store == After(run, s, h) && Clean(run, s, h)
  }

  lemma SkipsStep(actions: seq<Action>, s: Store, h: Host, depth: int, rest: seq<Action>)
    requires actions != [] && depth < MAX_ACTION_DEPTH && Valid(s) && AllSeparate(actions, s, h, Room(depth))
    requires Skips(actions[1..], Applied(actions[0], s, h, 0).store, h, depth + 1, rest)
    ensures Skips(actions, s, h, depth, (if Applied(actions[0], s, h, 0).errors == [] then [actions[0]] else []) + rest)
  {
    SyncStep(actions, s, h, depth);
    SeparateStep(actions, s, h, depth);
    if Applied(actions[0], s, h, 0).errors == [] {
      ConsStep(actions[0], rest, s, h);
    } else {
      assert [] + rest == rest;
    }
  }

  predicate SkipsWithin(actions: seq<Action>, s: Store, h: Host, depth: int, m: nat)
    requires m <= |actions|
  {
    Skips(actions, s, h, depth, Succeeding(actions[..m], s, h))
  }

  lemma SkipsWithinStep(actions: seq<Action>, s: Store, h: Host, depth: int, m: nat)
    requires 0 < m <= |actions| && depth < MAX_ACTION_DEPTH && Valid(s) && AllSeparate(actions, s, h, Room(depth))
    requires SkipsWithin(actions[1..], Applied(actions[0], s, h, 0).store, h, depth + 1, m - 1)
    ensures SkipsWithin(actions, s, h, depth, m)
  {
    SucceedingStep(actions, s, h, m);
    SkipsStep(actions, s, h, depth, Succeeding(actions[1..][..m - 1], Applied(actions[0], s, h, 0).store, h));
  }

  function Limit(actions: seq<Action>, depth: int): nat { Min(|actions|, Room(depth)) }

  lemma SkipsGoOn(actions: seq<Action>, s: Store, h: Host, depth: int)
    requires actions != [] && depth < MAX_ACTION_DEPTH && Valid(s) && AllSeparate(actions, s, h, Room(depth))
    requires SkipsWithin(actions[1..], Applied(actions[0], s, h, 0).store, h, depth + 1, Limit(actions[1..], depth + 1))
    ensures SkipsWithin(actions, s, h, depth, Limit(actions, depth))
  {
    assert Limit(actions[1..], depth + 1) == Limit(actions, depth) - 1;
    SkipsWithinStep(actions, s, h, depth, Limit(actions, depth));
  }

  lemma NothingSkipped(actions: seq<Action>, s: Store, h: Host, depth: int)
    requires actions == [] || depth >= MAX_ACTION_DEPTH
    ensures SkipsWithin(actions, s, h, depth, Limit(actions, depth))
  {
  }

  /** The sync driver's state is that of running only the actions that succeed, up to the limit, if the
      actions act separately. */
  lemma {:induction false} SyncSkipsFailures(actions: seq<Action>, s: Store, h: Host, depth: int)
    requires Valid(s) && AllSeparate(actions, s, h, Room(depth))
    ensures SkipsWithin(actions, s, h, depth, Limit(actions, depth))
    decreases |actions|
  {
    if actions == [] || depth >= MAX_ACTION_DEPTH {
      NothingSkipped(actions, s, h, depth);
    } else {
      SeparateStep(actions, s, h, depth);
      SyncSkipsFailures(actions[1..], Applied(actions[0], s, h, 0).store, h, depth + 1);
      SkipsGoOn(actions, s, h, depth);
    }
  }

  // ------------------------------------------------------------ when the drivers agree

  /** What the sync driver still does after the async one has stopped. */
  function Rest(actions: seq<Action>, s: Store, h: Host, depth: int): Outcome
    decreases |actions|
  {
    if actions == [] || depth >= MAX_ACTION_DEPTH then Failed(s, [])
    else
      var r := Applied(actions[0], s, h, depth + 1);
      if r.errors != [] then SyncRun(actions[1..], r.store, h, depth + 1) else Rest(actions[1..], r.store, h, depth + 1)
  }

  lemma {:induction false} SyncIsAsyncThenRest(actions: seq<Action>, s: Store, h: Host, depth: int)
    ensures SyncRun(actions, s, h, depth) == Then(AsyncRun(actions, s, h, depth), Rest(actions, s, h, depth))
    decreases |actions|
  {
    if actions != [] && depth < MAX_ACTION_DEPTH {
      var r := Applied(actions[0], s, h, depth + 1);
      if r.errors == [] {
        SyncIsAsyncThenRest(actions[1..], r.store, h, depth + 1);
        ThenAssociates(r, AsyncRun(actions[1..], r.store, h, depth + 1), Rest(actions[1..], r.store, h, depth + 1));
      }
    }
  }

  lemma {:induction false} UniqueHasAll(keys: seq<string>)
    ensures forall k :: k in Unique(keys) <==> k in keys
    decreases |keys|
  {
    if keys != [] {
      UniqueHasAll(keys[..|keys| - 1]);
      assert forall k :: k in keys <==> k in keys[..|keys| - 1] || k == keys[|keys| - 1];
    }
  }

  lemma {:induction false} UniqueConcat(a: seq<string>, b: seq<string>)
    ensures |Unique(a + b)| >= |Unique(a)|
    ensures Unique(a + b) == Unique(a) <==> forall k :: k in b ==> k in a
    decreases |b|
  {
    if b == [] {
      assert a + b == a;
    } else {
      var init, last := b[..|b| - 1], b[|b| - 1];
      assert (a + b)[..|a + b| - 1] == a + init;
      UniqueConcat(a, init);
      UniqueHasAll(a + init);
      assert forall k :: k in b <==> k in init || k == last;
    }
  }

  /** The drivers give the same result exactly when no action errs, or whatever follows the first one
      that errs reports no error, sends nothing, changes no key that was not reported yet and ends in the
      same state. */
  lemma DriversAgreeExactly(actions: seq<Action>, s: Store, h: Host, depth: int)
    ensures var first, rest := AsyncRun(actions, s, h, depth), Rest(actions, s, h, depth);
            Reported(first) == Reported(SyncRun(actions, s, h, depth)) <==>
              rest.errors == [] && rest.sent == [] && rest.store == first.store
              && forall k :: k in rest.changedKeys ==> k in first.changedKeys
  {
    var first, rest := AsyncRun(actions, s, h, depth), Rest(actions, s, h, depth);
    SyncIsAsyncThenRest(actions, s, h, depth);
    UniqueConcat(first.changedKeys, rest.changedKeys);
    assert first.errors + rest.errors == first.errors <==> rest.errors == [];
    assert first.sent + rest.sent == first.sent <==> rest.sent == [];
  }

  /** In particular they agree when no action errs, and one reports an error exactly when the other does. */
  lemma {:induction false} DriversAgreeWithoutErrors(actions: seq<Action>, s: Store, h: Host, depth: int)
    ensures AsyncRun(actions, s, h, depth).errors == [] <==> SyncRun(actions, s, h, depth).errors == []
    ensures AsyncRun(actions, s, h, depth).errors == [] ==> AsyncRun(actions, s, h, depth) == SyncRun(actions, s, h, depth)
    decreases |actions|
  {
    if actions != [] && depth + 1 <= MAX_ACTION_DEPTH {
      DriversAgreeWithoutErrors(actions[1..], Applied(actions[0], s, h, depth + 1).store, h, depth + 1);
    }
  }

  lemma LastLeavesNothing(a: Action, s: Store, h: Host, depth: int)
    ensures Rest([a], s, h, depth) == Failed(AsyncRun([a], s, h, depth).store, [])
  {
    var none: seq<Action> := [];
    assert [a][1..] == none;
    if depth < MAX_ACTION_DEPTH {
      var r := Applied(a, s, h, depth + 1);
      assert Rest(none, r.store, h, depth + 1) == SyncRun(none, r.store, h, depth + 1) == Failed(r.store, []);
      assert AsyncRun(none, r.store, h, depth + 1) == Failed(r.store, []);
    }
  }

  lemma {:induction false} NothingIsLeft(actions: seq<Action>, s: Store, h: Host, depth: int)
    requires actions != [] && AsyncRun(actions[..|actions| - 1], s, h, depth).errors == []
    ensures Rest(actions, s, h, depth) == Failed(AsyncRun(actions, s, h, depth).store, [])
    decreases |actions|
  {
    if |actions| == 1 {
      assert actions == [actions[0]];
      LastLeavesNothing(actions[0], s, h, depth);
    } else if depth < MAX_ACTION_DEPTH {
      var init, r := actions[..|actions| - 1], Applied(actions[0], s, h, depth + 1);
      assert init[0] == actions[0] && init[1..] == actions[1..][..|actions| - 2];
      NothingIsLeft(actions[1..], r.store, h, depth + 1);
    }
  }

  /** They also agree when only the last action of the list errs: nothing is left for the sync driver. */
  lemma DriversAgreeIfOnlyTheLastErrs(actions: seq<Action>, s: Store, h: Host, depth: int)
    requires actions != [] && AsyncRun(actions[..|actions| - 1], s, h, depth).errors == []
    ensures Reported(AsyncRun(actions, s, h, depth)) == Reported(SyncRun(actions, s, h, depth))
  {
    NothingIsLeft(actions, s, h, depth);
    DriversAgreeExactly(actions, s, h, depth);
  }

  // ------------------------------------------------------------ actions that undo each other

  /** Toggling twice leaves the truth value, as a boolean. */
  lemma ToggleTwice(s: Store, h: Host, target: string)
    requires Writable(h.authority, target)
    ensures After([Toggle(target), Toggle(target)], s, h) == Put(s, target, Bool(Truthy(Get(s.keys, target))))
  {
    var a := Toggle(target);
    var once := Applied(a, s, h, 0).store;
    ConsStep(a, [a], s, h);
    ConsStep(a, [], once, h);
    assert [a] + [a] == [a, a] && [a] + [] == [a];
    assert once.keys[target := Bool(Truthy(Get(s.keys, target)))] == s.keys[target := Bool(Truthy(Get(s.keys, target)))];
  }

  /** The integers that a double represents without gaps. */
  const MAX_SAFE: int := 0x20_0000_0000_0000

  predicate Safe(n: int) { -MAX_SAFE <= n <= MAX_SAFE }

  predicate ReadsInteger(h: Host, heap: Heap, n: int) { h.number(heap, Num(n as real)) == Some(n as real) }

  /** Numbers convert to themselves, as far as doubles are exact. */
  ghost predicate ReadsIntegers(h: Host) { forall heap: Heap, n: int :: Safe(n) ==> ReadsInteger(h, heap, n) }

  lemma Incremented(s: Store, h: Host, target: string, n: int, amount: int)
    requires Writable(h.authority, target) && Counter(h, s.heap, Get(s.keys, target)) == n as real
    ensures Applied(Increment(target, Some(amount as real)), s, h, 0)
         == Outcome(Put(s, target, Num((n + amount) as real)), [], [target], [])
  {
    assert n as real + amount as real == (n + amount) as real;
  }

  lemma Decremented(s: Store, h: Host, target: string, n: int, amount: int)
    requires Writable(h.authority, target) && ReadsInteger(h, s.heap, n + amount)
    requires Get(s.keys, target) == Num((n + amount) as real)
    ensures Applied(Decrement(target, Some(amount as real)), s, h, 0) == Outcome(Put(s, target, Num(n as real)), [], [target], [])
  {
    assert (n + amount) as real - amount as real == n as real;
  }

  /** A decrement undoes an increment by the same amount, for integers that stay exact: what is left is
      the number the value counts as, 0 if it is none. Doubles round beyond that, and between integers. */
  lemma DecrementUndoesIncrement(s: Store, h: Host, target: string, n: int, amount: int)
    requires Writable(h.authority, target) && ReadsIntegers(h)
    requires Counter(h, s.heap, Get(s.keys, target)) == n as real && Safe(n) && Safe(amount) && Safe(n + amount)
    ensures var step := Some(amount as real);
            After([Increment(target, step), Decrement(target, step)], s, h) == Put(s, target, Num(n as real))
  {
    var a, b := Increment(target, Some(amount as real)), Decrement(target, Some(amount as real));
    var once := Put(s, target, Num((n + amount) as real));
    Incremented(s, h, target, n, amount);
    assert ReadsInteger(h, once.heap, n + amount);
    Decremented(once, h, target, n, amount);
    ConsStep(a, [b], s, h);
    ConsStep(b, [], Put(once, target, Num(n as real)), h);
    ConsStep(b, [], once, h);
    assert [a] + [b] == [a, b] && [b] + [] == [b];
    assert once.keys[target := Num(n as real)] == s.keys[target := Num(n as real)];
  }

  /** Removing the last item undoes an append that went through, whatever the append wrote into objects
      of the state. */
  lemma RemoveUndoesAppend(s: Store, h: Host, target: string, item: Json, from: Option<Entries>)
    requires Writable(h.authority, target)
    requires Applied(AppendItem(target, item, from), s, h, 0).errors == []
    ensures var items, a := ItemsOf(Get(s.keys, target)), AppendItem(target, item, from);
            After([a, RemoveItem(target, Locator(Some(|items|), None, None, None))], s, h)
              == s.(keys := s.keys[target := Arr(items)], heap := HeapOf(a, s, h))
  {
    var items := ItemsOf(Get(s.keys, target));
    var a, b := AppendItem(target, item, from), RemoveItem(target, Locator(Some(|items|), None, None, None));
    var once := Applied(a, s, h, 0).store;
    AppendedIsLast(s, h, items, item, from);
    HeapOfAction(a, s, h);
    RemoveLast(once, h, target, items);
    ConsStep(a, [b], s, h);
    ConsStep(b, [], once, h);
    assert [a] + [b] == [a, b] && [b] + [] == [b];
    assert once.keys[target := Arr(items)] == s.keys[target := Arr(items)];
  }

  lemma RemoveLast(s: Store, h: Host, target: string, items: seq<Json>)
    requires Writable(h.authority, target)
    requires var longer := ItemsOf(Get(s.keys, target)); |longer| == |items| + 1 && longer[..|items|] == items
    ensures Applied(RemoveItem(target, Locator(Some(|items|), None, None, None)), s, h, 0) == Written(s, target, Arr(items))
  {
    var longer := ItemsOf(Get(s.keys, target));
    assert longer[..|items|] + longer[|items| + 1..] == items;
  }

  lemma AppendedIsLast(s: Store, h: Host, items: seq<Json>, item: Json, from: Option<Entries>)
    ensures var r := Appended(s, h, items, item, from).1;
            r.Ok? ==> r.value.Arr? && |r.value.items| == |items| + 1 && r.value.items[..|items|] == items
  {
  }

  /** An update changes one item, the asked one: its keys in the patch take the patch's values and its
      other keys stay. */
  lemma UpdateTouchesOneItem(h: Host, heap: Heap, items: seq<Json>, asked: (Option<int>, Option<string>), patch: Option<Fields>)
    ensures var r, i := Patched(h, heap, items, asked, patch), ItemIndex(h, heap, items, asked);
            && (r.Some? <==> 0 <= i < |items| && patch.Some? && (items[i].Arr? || RecordOf(heap, items[i]).Some?))
            && (r.Some? ==>
                  && r.value.Arr? && |r.value.items| == |items|
                  && var now := r.value.items;
                  && (forall j: nat :: j < |items| && j != i ==> now[j] == items[j])
                  && now[i].Obj? && (forall k :: k in patch.value ==> Get(now[i].fields, k) == patch.value[k])
                  && (RecordOf(heap, items[i]).Some? ==>
                        forall k :: k !in patch.value ==> Get(now[i].fields, k) == Get(RecordOf(heap, items[i]).value, k)))
  {
  }

  /** Filling an object from state reads declared keys only, and the last path reads back its value if
      it does not lead into an object of the state. */
  lemma FilledFromReadable(keys: Fields, h: Host, heap: Heap, o: Fields, entries: Entries)
    requires Filled(keys, h, heap, o, entries).1.Ok?
    ensures forall i: nat :: i < |entries| ==> Readable(h.authority, entries[i].1)
    ensures entries != [] && ValidPath(entries[|entries| - 1].0) ==>
              var (heap', before) := Filled(keys, h, heap, o, entries[..|entries| - 1]);
              before.Ok? &&
              var path := Segments(entries[|entries| - 1].0);
              Crossing(heap', before.value, path).None? ==>
                GetAt(Filled(keys, h, heap, o, entries).1.value, path) == Get(keys, entries[|entries| - 1].1)
  {
    AllRead(keys, h, heap, o, entries);
    if entries != [] && ValidPath(entries[|entries| - 1].0) {
      var (heap', before) := Filled(keys, h, heap, o, entries[..|entries| - 1]);
      var path, v := Segments(entries[|entries| - 1].0), Get(keys, entries[|entries| - 1].1);
      if Crossing(heap', before.value, path).None? {
        FillOneWithin(heap', before.value, entries[|entries| - 1].0, v);
        SetThenGet(before.value, path, v);
      }
    }
  }

  lemma {:induction false} AllRead(keys: Fields, h: Host, heap: Heap, o: Fields, entries: Entries)
    requires Filled(keys, h, heap, o, entries).1.Ok?
    ensures forall i: nat :: i < |entries| ==> Readable(h.authority, entries[i].1)
    decreases |entries|
  {
    if entries != [] {
      var init := entries[..|entries| - 1];
      AllRead(keys, h, heap, o, init);
      assert forall i: nat :: i < |init| ==> entries[i] == init[i];
    }
  }
}
