/** Writing a value at a dotted path of an object (src/lib/actions.ts). */
module DottedPaths {
  import opened Common

  /** A JSON value, or the `undefined` that reading a missing key gives. `Obj` is an object that nothing
      else refers to. An object that several places may refer to is a `Ref` to its record in a heap. */
  datatype Json =
    | Undefined
    | Null
    | Bool(b: bool)
    | Num(n: real)
    | Str(s: string)
    | Arr(items: seq<Json>)
    | Obj(fields: map<string, Json>)
    | Ref(addr: nat)

  type Fields = map<string, Json>

  type Heap = map<nat, Fields>

  const MAX_PATH_DEPTH: nat := 4
  const MAX_PATH_LENGTH: nat := 64

  predicate Dangerous(segment: string) { segment in {"__proto__", "constructor", "prototype"} }

  predicate IsLetter(c: char) { 'a' <= c <= 'z' || 'A' <= c <= 'Z' || c == '_' }

  predicate IsIdentifier(s: string) {
    s != "" && IsLetter(s[0]) && forall i :: 1 <= i < |s| ==> IsLetter(s[i]) || '0' <= s[i] <= '9'
  }

  predicate ValidSegment(segment: string) { segment != "" && !Dangerous(segment) && IsIdentifier(segment) }

  /** The pieces of `s` between dots. */
  function Segments(s: string): (r: seq<string>)
    ensures r != []
  {
    if s == "" then [""]
    else
      var r := Segments(s[1..]);
      if s[0] == '.' then [""] + r else [[s[0]] + r[0]] + r[1..]
  }

  function Dotted(segments: seq<string>): string {
    if segments == [] then "" else if |segments| == 1 then segments[0] else segments[0] + "." + Dotted(segments[1..])
  }

  predicate ValidPath(path: string) {
    && path != "" && |path| <= MAX_PATH_LENGTH && |Segments(path)| <= MAX_PATH_DEPTH
    && forall i: nat :: i < |Segments(path)| ==> ValidSegment(Segments(path)[i])
  }

  predicate Nullish(v: Json) { v.Undefined? || v.Null? }

  function Get(o: Fields, key: string): Json { if key in o then o[key] else Undefined }

  /** The object with `value` at the end of the segments, unless a value on the way is in the way. */
  function SetAt(o: Fields, segments: seq<string>, value: Json): (bool, Fields)
    requires segments != []
    decreases |segments|
  {
    var seg := segments[0];
    if |segments| == 1 then (true, o[seg := value])
    else
      var existing := Get(o, seg);
      if Nullish(existing) then
        var (ok, below) := SetAt(map[], segments[1..], value);
        (ok, o[seg := Obj(below)])
      else if existing.Obj? then
        var (ok, below) := SetAt(existing.fields, segments[1..], value);
        (ok, if ok then o[seg := Obj(below)] else o)
      else (false, o)
  }

  /** The last record that the walk along the segments steps into before the leaf, and the segments that
      are left there; none if the walk stays within `o`. */
  function Crossing(heap: Heap, o: Fields, segments: seq<string>): (c: Option<(nat, seq<string>)>)
    requires segments != []
    ensures c.Some? ==> c.value.0 in heap && c.value.1 != [] && |c.value.1| < |segments|
    decreases |segments|
  {
    var v := Get(o, segments[0]);
    if |segments| == 1 then None
    else if v.Obj? then Crossing(heap, v.fields, segments[1..])
    else if v.Ref? && v.addr in heap then
      var below := Crossing(heap, heap[v.addr], segments[1..]);
      if below.Some? then below else Some((v.addr, segments[1..]))
    else None
  }

  /** The write where the walk ends: in the record it stepped into last, or in `o`. */
  function SetThrough(heap: Heap, o: Fields, segments: seq<string>, value: Json): (bool, Heap, Fields)
    requires segments != []
  {
    match Crossing(heap, o, segments)
    case None =>
      var (ok, next) := SetAt(o, segments, value);
      (ok, heap, next)
    case Some((a, rest)) =>
      var (ok, record) := SetAt(heap[a], rest, value);
      (ok, if ok then heap[a := record] else heap, o)
  }

  /** What `setDottedPath` returns, and the heap and the target afterwards. */
  function SetDottedPath(heap: Heap, target: Fields, path: string, value: Json): (bool, Heap, Fields) {
    if !ValidPath(path) then (false, heap, target) else SetThrough(heap, target, Segments(path), value)
  }

  /** Reading along the segments; anything but an object has no keys. */
  function GetAt(o: Fields, segments: seq<string>): Json
    requires segments != []
    decreases |segments|
  {
    var v := Get(o, segments[0]);
    if |segments| == 1 then v else if v.Obj? then GetAt(v.fields, segments[1..]) else Undefined
  }

  // ------------------------------------------------------------ laws

  lemma {:induction false} SegmentsSpell(s: string)
    ensures Dotted(Segments(s)) == s
    ensures forall i: nat :: i < |Segments(s)| ==> '.' !in Segments(s)[i]
    decreases |s|
  {
    if s != "" {
      SegmentsSpell(s[1..]);
      if s[0] == '.' { DottedAfterDot(Segments(s[1..])); } else { DottedLonger(s[0], Segments(s[1..])); }
    }
  }

  lemma DottedAfterDot(r: seq<string>)
    requires r != []
    ensures Dotted([""] + r) == "." + Dotted(r)
  {
    assert ([""] + r)[1..] == r && "" + "." + Dotted(r) == "." + Dotted(r);
  }

  lemma DottedLonger(c: char, r: seq<string>)
    requires r != []
    ensures Dotted([[c] + r[0]] + r[1..]) == [c] + Dotted(r)
  {
    assert ([[c] + r[0]] + r[1..])[1..] == r[1..];
    if |r| > 1 { assert [c] + r[0] + "." + Dotted(r[1..]) == [c] + (r[0] + "." + Dotted(r[1..])); }
  }

  /** A value on the way is something that has no keys and is not missing. */
  ghost predicate Blocked(o: Fields, segments: seq<string>) {
    exists k: nat :: 0 < k < |segments| && !Nullish(GetAt(o, segments[..k])) && !GetAt(o, segments[..k]).Obj?
  }

  lemma {:induction false} EmptyNeverBlocks(segments: seq<string>, value: Json)
    requires segments != []
    ensures SetAt(map[], segments, value).0
    decreases |segments|
  {
    if |segments| > 1 { EmptyNeverBlocks(segments[1..], value); }
  }

  lemma PrefixBelow(o: Fields, segments: seq<string>, k: nat)
    requires 1 < k <= |segments|
    ensures segments[..k][1..] == segments[1..][..k - 1]
    ensures GetAt(o, segments[..k]) ==
              var v := Get(o, segments[0]); if v.Obj? then GetAt(v.fields, segments[1..][..k - 1]) else Undefined
  {
    assert segments[..k][1..] == segments[1..][..k - 1];
  }

  lemma {:induction false} BlockedBelow(o: Fields, segments: seq<string>)
    requires |segments| > 1
    ensures Blocked(o, segments) <==>
              var v := Get(o, segments[0]);
              !Nullish(v) && (v.Obj? ==> Blocked(v.fields, segments[1..]))
  {
    var v := Get(o, segments[0]);
    assert segments[..1] == [segments[0]];
    if k: nat :| 0 < k < |segments| && !Nullish(GetAt(o, segments[..k])) && !GetAt(o, segments[..k]).Obj? {
      if k > 1 {
        PrefixBelow(o, segments, k);
        assert v.Obj? ==> Blocked(v.fields, segments[1..]) by {
          assert v.Obj? ==> GetAt(v.fields, segments[1..][..k - 1]) == GetAt(o, segments[..k]);
        }
      }
    }
    if v.Obj? && Blocked(v.fields, segments[1..]) {
      var j: nat :| 0 < j < |segments| - 1
        && !Nullish(GetAt(v.fields, segments[1..][..j])) && !GetAt(v.fields, segments[1..][..j]).Obj?;
      PrefixBelow(o, segments, j + 1);
      assert GetAt(o, segments[..j + 1]) == GetAt(v.fields, segments[1..][..j]);
    }
    if !Nullish(v) && !v.Obj? { assert GetAt(o, segments[..1]) == v; }
  }

  /** The write fails exactly when a value on the way blocks it, and then it has changed nothing: no
      object is created before the blocking value is met. */
  lemma {:induction false} FailureIsClean(o: Fields, segments: seq<string>, value: Json)
    requires segments != []
    ensures SetAt(o, segments, value).0 <==> !Blocked(o, segments)
    ensures !SetAt(o, segments, value).0 ==> SetAt(o, segments, value).1 == o
    decreases |segments|
  {
    if |segments| > 1 {
      var existing := Get(o, segments[0]);
      BlockedBelow(o, segments);
      if Nullish(existing) {
        EmptyNeverBlocks(segments[1..], value);
      } else if existing.Obj? {
        FailureIsClean(existing.fields, segments[1..], value);
      }
    }
  }

  /** A successful write is read back, and is undone by nothing but another write there. */
  lemma {:induction false} SetThenGet(o: Fields, segments: seq<string>, value: Json)
    requires segments != [] && SetAt(o, segments, value).0
    ensures GetAt(SetAt(o, segments, value).1, segments) == value
    decreases |segments|
  {
    if |segments| > 1 {
      var existing := Get(o, segments[0]);
      SetThenGet(if existing.Obj? then existing.fields else map[], segments[1..], value);
    }
  }

  lemma {:induction false} SetTwice(o: Fields, segments: seq<string>, first: Json, second: Json)
    requires segments != [] && SetAt(o, segments, first).0
    ensures SetAt(SetAt(o, segments, first).1, segments, second) == SetAt(o, segments, second)
    decreases |segments|
  {
    var seg := segments[0];
    if |segments| == 1 {
      assert o[seg := first][seg := second] == o[seg := second];
    } else {
      var existing := Get(o, seg);
      var inner := if existing.Obj? then existing.fields else map[];
      SetTwice(inner, segments[1..], first, second);
      FailureIsClean(inner, segments[1..], first);
      SameSuccess(inner, segments[1..], first, second);
      var b1, b2 := SetAt(inner, segments[1..], first).1, SetAt(inner, segments[1..], second).1;
      assert o[seg := Obj(b1)][seg := Obj(b2)] == o[seg := Obj(b2)];
    }
  }

  lemma SameSuccess(o: Fields, segments: seq<string>, a: Json, b: Json)
    requires segments != []
    ensures SetAt(o, segments, a).0 == SetAt(o, segments, b).0
  {
    FailureIsClean(o, segments, a);
    FailureIsClean(o, segments, b);
  }

  lemma {:induction false} GetOfEmpty(segments: seq<string>)
    requires segments != []
    ensures GetAt(map[], segments) == Undefined
  {
  }

  /** Every other path, neither above nor below the written one, reads as before. */
  lemma {:induction false} OthersKept(o: Fields, segments: seq<string>, value: Json, other: seq<string>)
    requires segments != [] && other != [] && !(segments <= other) && !(other <= segments)
    ensures GetAt(SetAt(o, segments, value).1, other) == GetAt(o, other)
    decreases |segments|
  {
    if !SetAt(o, segments, value).0 {
      FailureIsClean(o, segments, value);
    } else if other[0] == segments[0] && |segments| > 1 && |other| > 1 {
      var existing := Get(o, segments[0]);
      var inner := if existing.Obj? then existing.fields else map[];
      assert segments == [segments[0]] + segments[1..] && other == [other[0]] + other[1..];
      OthersKept(inner, segments[1..], value, other[1..]);
      GetOfEmpty(other[1..]);
    } else {
      assert |segments| == 1 || |other| == 1 ==> other[0] != segments[0] by {
        if other[0] == segments[0] {
          assert |segments| == 1 ==> segments <= other;
          assert |other| == 1 ==> other <= segments;
        }
      }
    }
  }

  // ------------------------------------------------------------ writes through shared objects

  /** Reading along the segments, through shared objects too. */
  function GetThrough(heap: Heap, o: Fields, segments: seq<string>): Json
    requires segments != []
    decreases |segments|
  {
    var v := Get(o, segments[0]);
    if |segments| == 1 then v
    else if v.Obj? then GetThrough(heap, v.fields, segments[1..])
    else if v.Ref? && v.addr in heap then GetThrough(heap, heap[v.addr], segments[1..])
    else Undefined
  }

  /** The shared objects that reading along the segments looks into. */
  function Visited(heap: Heap, o: Fields, segments: seq<string>): set<nat>
    requires segments != []
    decreases |segments|
  {
    var v := Get(o, segments[0]);
    if |segments| == 1 then {}
    else if v.Obj? then Visited(heap, v.fields, segments[1..])
    else if v.Ref? && v.addr in heap then {v.addr} + Visited(heap, heap[v.addr], segments[1..])
    else {}
  }

  /** A write changes one object at most: the one the walk stepped into last, at the rest of the path, or
      the target itself. If it fails it changes none. */
  lemma WriteIsLocal(heap: Heap, o: Fields, segments: seq<string>, value: Json)
    requires segments != []
    ensures var (ok, heap', o') := SetThrough(heap, o, segments, value);
            && (!ok ==> heap' == heap && o' == o)
            && match Crossing(heap, o, segments)
               case None => heap' == heap && (ok ==> GetAt(o', segments) == value)
               case Some((a, rest)) =>
                 && o' == o && (forall b :: b in heap && b != a ==> b in heap' && heap'[b] == heap[b])
                 && (ok ==> heap'.Keys == heap.Keys && GetAt(heap'[a], rest) == value)
  {
    match Crossing(heap, o, segments)
    case None =>
      FailureIsClean(o, segments, value);
      if SetAt(o, segments, value).0 { SetThenGet(o, segments, value); }
    case Some((a, rest)) =>
      if SetAt(heap[a], rest, value).0 { SetThenGet(heap[a], rest, value); }
  }

  /** Whatever an object comes to hold, a path from any object reads as before unless it looks into it. */
  lemma {:induction false} OtherObjectsKept(heap: Heap, a: nat, record: Fields, o: Fields, segments: seq<string>)
    requires segments != [] && a in heap && a !in Visited(heap, o, segments)
    ensures GetThrough(heap[a := record], o, segments) == GetThrough(heap, o, segments)
    decreases |segments|
  {
    if |segments| > 1 {
      var v := Get(o, segments[0]);
      if v.Obj? {
        OtherObjectsKept(heap, a, record, v.fields, segments[1..]);
      } else if v.Ref? && v.addr in heap {
        OtherObjectsKept(heap, a, record, heap[v.addr], segments[1..]);
      }
    }
  }

  // ------------------------------------------------------------ the walk as it runs

  /** Where the walk stands: in a shared object or in the target, at `inner` within it. */
  function Current(heap: Heap, o: Fields, holder: Option<nat>): Fields {
    if holder.Some? && holder.value in heap then heap[holder.value] else o
  }

  function WithRecord(heap: Heap, o: Fields, holder: Option<nat>, record: Fields): (Heap, Fields) {
    if holder.Some? && holder.value in heap then (heap[holder.value := record], o) else (heap, record)
  }

  /** What remains to be done from there. */
  function Finish(heap: Heap, o: Fields, holder: Option<nat>, rest: seq<string>, value: Json): (bool, Heap, Fields)
    requires rest != []
  {
    match Crossing(heap, Current(heap, o, holder), rest)
    case None =>
      var (ok, record) := SetAt(Current(heap, o, holder), rest, value);
      if ok then (true, WithRecord(heap, o, holder, record).0, WithRecord(heap, o, holder, record).1) else (false, heap, o)
    case Some((a, last)) =>
      var (ok, record) := SetAt(heap[a], last, value);
      (ok, if ok then heap[a := record] else heap, o)
  }

  predicate IsObjectAt(o: Fields, p: seq<string>) { p == [] || GetAt(o, p).Obj? }

  function FieldsAt(o: Fields, p: seq<string>): Fields
    requires IsObjectAt(o, p)
  {
    if p == [] then o else GetAt(o, p).fields
  }

  /** An object within an object: going on from it is going on from the outer one. */
  lemma {:induction false} Along(heap: Heap, o: Fields, p: seq<string>, rest: seq<string>, value: Json)
    requires IsObjectAt(o, p) && rest != []
    ensures Crossing(heap, o, p + rest) == Crossing(heap, FieldsAt(o, p), rest)
    ensures GetAt(o, p + rest) == GetAt(FieldsAt(o, p), rest)
    ensures SetAt(o, p + rest, value).0 == SetAt(FieldsAt(o, p), rest, value).0
    decreases |p|
  {
    if p == [] {
      assert p + rest == rest;
    } else {
      assert (p + rest)[1..] == p[1..] + rest && (p + rest)[0] == p[0];
      var v := Get(o, p[0]);
      if |p| > 1 { assert GetAt(o, p) == GetAt(v.fields, p[1..]); } else { assert p[1..] == []; }
      Along(heap, v.fields, p[1..], rest, value);
    }
  }

  /** Making an empty object on the way does not change what the whole write comes to. */
  ghost predicate Made(heap: Heap, o: Fields, p: seq<string>, seg: string, rest: seq<string>, value: Json)
    requires rest != []
  {
    var (ok, made) := SetAt(o, p + [seg], Obj(map[]));
    && ok && IsObjectAt(made, p + [seg]) && FieldsAt(made, p + [seg]) == map[]
    && SetAt(made, p + [seg] + rest, value) == SetAt(o, p + [seg] + rest, value) && SetAt(o, p + [seg] + rest, value).0
    && Crossing(heap, o, p + [seg] + rest).None? && Crossing(heap, made, p + [seg] + rest).None?
  }

  lemma CreateHere(heap: Heap, o: Fields, seg: string, rest: seq<string>, value: Json)
    requires Nullish(Get(o, seg)) && rest != []
    ensures Made(heap, o, [], seg, rest, value)
  {
    EmptyNeverBlocks(rest, value);
    assert [] + [seg] == [seg] && ([seg] + rest)[1..] == rest;
    var below := SetAt(map[], rest, value).1;
    assert o[seg := Obj(map[])][seg := Obj(below)] == o[seg := Obj(below)];
  }

  lemma MadeBelow(heap: Heap, o: Fields, p: seq<string>, seg: string, rest: seq<string>, value: Json)
    requires p != [] && rest != [] && Get(o, p[0]).Obj? && Made(heap, Get(o, p[0]).fields, p[1..], seg, rest, value)
    ensures Made(heap, o, p, seg, rest, value)
  {
    var v := Get(o, p[0]);
    assert (p + [seg])[1..] == p[1..] + [seg] && (p + [seg] + rest)[1..] == p[1..] + [seg] + rest;
    var made := SetAt(v.fields, p[1..] + [seg], Obj(map[])).1;
    var last := SetAt(made, p[1..] + [seg] + rest, value).1;
    assert o[p[0] := Obj(made)][p[0] := Obj(last)] == o[p[0] := Obj(last)];
  }

  lemma {:induction false} CreateFirst(heap: Heap, o: Fields, p: seq<string>, seg: string, rest: seq<string>, value: Json)
    requires IsObjectAt(o, p) && Nullish(Get(FieldsAt(o, p), seg)) && rest != []
    ensures Made(heap, o, p, seg, rest, value)
    decreases |p|
  {
    if p == [] {
      CreateHere(heap, o, seg, rest, value);
    } else {
      if |p| > 1 { assert GetAt(o, p) == GetAt(Get(o, p[0]).fields, p[1..]); } else { assert p[1..] == []; }
      CreateFirst(heap, Get(o, p[0]).fields, p[1..], seg, rest, value);
      MadeBelow(heap, o, p, seg, rest, value);
    }
  }

  lemma CreatedGoesOn(heap: Heap, o: Fields, holder: Option<nat>, inner: seq<string>, seg: string, rest: seq<string>, value: Json)
    requires holder.Some? ==> holder.value in heap
    requires IsObjectAt(Current(heap, o, holder), inner) && Nullish(Get(FieldsAt(Current(heap, o, holder), inner), seg)) && rest != []
    ensures var (_, made) := SetAt(Current(heap, o, holder), inner + [seg], Obj(map[]));
            var (heap', o') := WithRecord(heap, o, holder, made);
            && Current(heap', o', holder) == made && IsObjectAt(made, inner + [seg])
            && Finish(heap', o', holder, inner + [seg] + rest, value) == Finish(heap, o, holder, inner + [seg] + rest, value)
  {
    var record := Current(heap, o, holder);
    var (_, made) := SetAt(record, inner + [seg], Obj(map[]));
    var (heap', _) := WithRecord(heap, o, holder, made);
    CreateFirst(heap, record, inner, seg, rest, value);
    CreateFirst(heap', record, inner, seg, rest, value);
    var last := SetAt(record, inner + [seg] + rest, value).1;
    if holder.Some? { assert heap[holder.value := made][holder.value := last] == heap[holder.value := last]; }
  }

  lemma RefGoesOn(heap: Heap, o: Fields, holder: Option<nat>, inner: seq<string>, seg: string, rest: seq<string>, value: Json)
    requires IsObjectAt(Current(heap, o, holder), inner) && rest != []
    requires var v := Get(FieldsAt(Current(heap, o, holder), inner), seg); v.Ref? && v.addr in heap
    ensures var v := Get(FieldsAt(Current(heap, o, holder), inner), seg);
            Finish(heap, o, Some(v.addr), rest, value) == Finish(heap, o, holder, inner + [seg] + rest, value)
  {
    var record := Current(heap, o, holder);
    Along(heap, record, inner, [seg] + rest, value);
    assert inner + ([seg] + rest) == inner + [seg] + rest && ([seg] + rest)[1..] == rest;
  }

  method WriteDottedPath(heap0: Heap, target0: Fields, path: string, value: Json) returns (ok: bool, heap: Heap, target: Fields)
    ensures (ok, heap, target) == SetDottedPath(heap0, target0, path, value)
  {
    heap, target := heap0, target0;
    if path == "" || |path| > MAX_PATH_LENGTH { return false, heap, target; }
    var segments := Segments(path);
    if |segments| > MAX_PATH_DEPTH { return false, heap, target; }
    var k := 0;
    while k < |segments|
      invariant k <= |segments| && forall j: nat :: j < k ==> ValidSegment(segments[j])
    {
      if !ValidSegment(segments[k]) { return false, heap, target; }
      k := k + 1;
    }
    ok, heap, target := Walk(heap, target, segments, value);
  }

  /** The walk stands at an object. */
  predicate Stands(heap: Heap, o: Fields, holder: Option<nat>, inner: seq<string>) {
    (holder.Some? ==> holder.value in heap) && IsObjectAt(Current(heap, o, holder), inner)
  }

  /** One step of the walk: into an object, made if it is missing, or no further. */
  method StepInto(heap0: Heap, o0: Fields, holder0: Option<nat>, inner0: seq<string>, seg: string,
                  ghost rest: seq<string>, ghost value: Json)
    returns (going: bool, heap: Heap, o: Fields, holder: Option<nat>, inner: seq<string>)
    requires Stands(heap0, o0, holder0, inner0) && rest != []
    ensures going ==> Stands(heap, o, holder, inner)
                      && Finish(heap, o, holder, inner + rest, value) == Finish(heap0, o0, holder0, inner0 + [seg] + rest, value)
    ensures !going ==> heap == heap0 && o == o0 && Finish(heap0, o0, holder0, inner0 + [seg] + rest, value) == (false, heap0, o0)
  {
    heap, o, holder, inner, going := heap0, o0, holder0, inner0 + [seg], true;
    var record := Current(heap, o, holder);
    var existing := Get(FieldsAt(record, inner0), seg);
    assert inner0 + ([seg] + rest) == inner0 + [seg] + rest;
    Along(heap, record, inner0, [seg], Null);
    if Nullish(existing) {
      CreatedGoesOn(heap0, o0, holder, inner0, seg, rest, value);
      var made := SetAt(record, inner0 + [seg], Obj(map[])).1;
      heap, o := WithRecord(heap0, o0, holder, made).0, WithRecord(heap0, o0, holder, made).1;
    } else if existing.Ref? && existing.addr in heap {
      RefGoesOn(heap, o, holder0, inner0, seg, rest, value);
      holder, inner := Some(existing.addr), [];
      assert inner + rest == rest;
    } else if !existing.Obj? {
      Along(heap, record, inner0, [seg] + rest, value);
      going := false;
    }
  }

  lemma WalkStarts(heap: Heap, target: Fields, segments: seq<string>, value: Json)
    requires segments != []
    ensures Stands(heap, target, None, [])
    ensures Finish(heap, target, None, [] + segments[0..], value) == SetThrough(heap, target, segments, value)
  {
    assert [] + segments[0..] == segments;
    FailureIsClean(target, segments, value);
  }

  lemma NextSegment(inner: seq<string>, segments: seq<string>, i: nat)
    requires i < |segments|
    ensures inner + segments[i..] == inner + [segments[i]] + segments[i + 1..]
  {
  }

  method Walk(heap0: Heap, target0: Fields, segments: seq<string>, value: Json) returns (ok: bool, heap: Heap, target: Fields)
    requires segments != []
    ensures (ok, heap, target) == SetThrough(heap0, target0, segments, value)
  {
    heap, target := heap0, target0;
    var holder, inner, i := None, [], 0;
    WalkStarts(heap0, target0, segments, value);
    ghost var goal := SetThrough(heap0, target0, segments, value);
    while i < |segments| - 1
      invariant i < |segments| && Stands(heap, target, holder, inner)
      invariant Finish(heap, target, holder, inner + segments[i..], value) == goal
    {
      NextSegment(inner, segments, i);
      var going;
      going, heap, target, holder, inner := StepInto(heap, target, holder, inner, segments[i], segments[i + 1..], value);
      if !going { return false, heap, target; }
      i := i + 1;
    }
    ok, heap, target := WriteLeaf(heap, target, holder, inner + segments[i..], value, inner);
  }

  method WriteLeaf(heap0: Heap, target0: Fields, holder: Option<nat>, path: seq<string>, value: Json, ghost inner: seq<string>)
    returns (ok: bool, heap: Heap, target: Fields)
    requires Stands(heap0, target0, holder, inner) && |path| == |inner| + 1 && inner == path[..|inner|]
    ensures (ok, heap, target) == Finish(heap0, target0, holder, path, value)
  {
    heap, target := heap0, target0;
    var record := Current(heap, target, holder);
    assert path == inner + [path[|inner|]];
    Along(heap, record, inner, [path[|inner|]], value);
    var (written, last) := SetAt(record, path, value);
    ok := written;
    if ok { heap, target := WithRecord(heap, target, holder, last).0, WithRecord(heap, target, holder, last).1; }
  }
}
