/** Self-repair of a document (`validateAndRepair` in src/lib/software-document.ts).

    `draw(n)` is the n-th random suffix. Nothing is assumed about it: the results say what holds when
    every generated id was new, and that it fails otherwise. */
module DocumentRepair {
  import opened Common

  datatype PropValue = Text(text: string) | Other(value: Value)

  datatype Prop = Prop(key: string, value: PropValue)

  datatype Component = Component(
    id: string, kind: string, props: seq<Prop>, valueKey: Option<string>, children: seq<Component>)

  datatype Section = Section(id: string, components: seq<Component>)

  datatype Contract = Contract(key: string, declaredBy: Option<string>)

  datatype Document = Document(sections: seq<Section>, contracts: seq<Contract>)

  datatype Note =
    | AddedFallbackSection
    | GeneratedId(id: string)
    | DeduplicatedId(from: string, to: string)
    | RemovedHandler(id: string, key: string)
    | RemovedScript(id: string, key: string)
    | DeclaredState(key: string)

  /** What the repair has gathered so far. `allFresh` is history: no generated id had been seen. */
  datatype Pass = Pass(
    seen: set<string>, declared: set<string>, contracts: seq<Contract>, notes: seq<Note>, drawn: nat, allFresh: bool)

  function LowerChar(c: char): char { if 'A' <= c <= 'Z' then c + ('a' - 'A') else c }

  /** Lower case as far as "on", "javascript:" and "<script" are concerned. */
  function Lower(s: string): string { seq(|s|, i requires 0 <= i < |s| => LowerChar(s[i])) }

  predicate Contains(s: string, part: string) { exists i | 0 <= i <= |s| :: part <= s[i..] }

  predicate IsHandler(p: Prop) { "on" <= Lower(p.key) && p.value.Text? }

  predicate IsScript(p: Prop) {
    p.value.Text? && (Contains(Lower(p.value.text), "javascript:") || Contains(Lower(p.value.text), "<script"))
  }

  function SafeProps(props: seq<Prop>): seq<Prop> {
    if props == [] then []
    else if IsHandler(props[0]) || IsScript(props[0]) then SafeProps(props[1..])
    else [props[0]] + SafeProps(props[1..])
  }

  function PropNotes(id: string, props: seq<Prop>): seq<Note> {
    if props == [] then []
    else if IsHandler(props[0]) then [RemovedHandler(id, props[0].key)] + PropNotes(id, props[1..])
    else if IsScript(props[0]) then [RemovedScript(id, props[0].key)] + PropNotes(id, props[1..])
    else PropNotes(id, props[1..])
  }

  function RepairId(draw: nat -> string, id: string, p: Pass): (string, Pass) {
    var (fixed, notes, drawn) :=
      if Trim(id) == "" then ("comp-" + draw(p.drawn), [GeneratedId("comp-" + draw(p.drawn))], p.drawn + 1)
      else if id in p.seen then
        (id + "-" + draw(p.drawn), [DeduplicatedId(id, id + "-" + draw(p.drawn))], p.drawn + 1)
      else (id, [], p.drawn);
    (fixed, p.(seen := p.seen + {fixed}, notes := p.notes + notes, drawn := drawn,
               allFresh := p.allFresh && fixed !in p.seen))
  }

  function DeclareKey(id: string, valueKey: Option<string>, p: Pass): Pass {
    if valueKey.None? || Trim(valueKey.value) == "" || Trim(valueKey.value) in p.declared then p
    else
      var key := Trim(valueKey.value);
      p.(declared := p.declared + {key}, contracts := p.contracts + [Contract(key, Some(id))],
         notes := p.notes + [DeclaredState(key)])
  }

  function RepairComponent(draw: nat -> string, c: Component, p: Pass): (Component, Pass)
    decreases c
  {
    var (id, p) := RepairId(draw, c.id, p);
    var p := p.(notes := p.notes + PropNotes(id, c.props));
    var p := DeclareKey(id, c.valueKey, p);
    var (children, p) := RepairForest(draw, c.children, p);
    (Component(id, c.kind, SafeProps(c.props), c.valueKey, children), p)
  }

  function RepairForest(draw: nat -> string, cs: seq<Component>, p: Pass): (seq<Component>, Pass)
    decreases cs
  {
    if cs == [] then ([], p)
    else
      var (c, p) := RepairComponent(draw, cs[0], p);
      var (rest, p) := RepairForest(draw, cs[1..], p);
      ([c] + rest, p)
  }

  function RepairSections(draw: nat -> string, ss: seq<Section>, p: Pass): (seq<Section>, Pass) {
    if ss == [] then ([], p)
    else
      var (cs, p) := RepairForest(draw, ss[0].components, p);
      var (rest, p) := RepairSections(draw, ss[1..], p);
      ([ss[0].(components := cs)] + rest, p)
  }

  function Keys(contracts: seq<Contract>): set<string> { set i | 0 <= i < |contracts| :: contracts[i].key }

  function StartPass(doc: Document): Pass {
    Pass({}, Keys(doc.contracts), doc.contracts, if doc.sections == [] then [AddedFallbackSection] else [], 0, true)
  }

  function WithFallback(doc: Document): seq<Section> {
    if doc.sections == [] then [Section("main", [])] else doc.sections
  }

  /** The repaired document, its notes, and whether every generated id was new. */
  function ValidateAndRepair(draw: nat -> string, doc: Document): (Document, seq<Note>, bool) {
    var (sections, p) := RepairSections(draw, WithFallback(doc), StartPass(doc));
    (Document(sections, p.contracts), p.notes, p.allFresh)
  }

  // ------------------------------------------------------------ what a repaired forest looks like

  /** Component ids in visiting order. */
  function Ids(cs: seq<Component>): seq<string>
    decreases cs
  {
    if cs == [] then [] else [cs[0].id] + Ids(cs[0].children) + Ids(cs[1..])
  }

  function AllIds(ss: seq<Section>): seq<string> {
    if ss == [] then [] else Ids(ss[0].components) + AllIds(ss[1..])
  }

  predicate Distinct(ids: seq<string>) { forall i, j | 0 <= i < j < |ids| :: ids[i] != ids[j] }

  predicate Disjoint(ids: seq<string>, seen: set<string>) { forall id :: id in ids ==> id !in seen }

  predicate CleanNode(c: Component, declared: set<string>) {
    && Trim(c.id) != ""
    && (forall p :: p in c.props ==> !IsHandler(p) && !IsScript(p))
    && (c.valueKey.Some? && Trim(c.valueKey.value) != "" ==> Trim(c.valueKey.value) in declared)
  }

  predicate Clean(cs: seq<Component>, declared: set<string>)
    decreases cs
  {
    cs == [] || (CleanNode(cs[0], declared) && Clean(cs[0].children, declared) && Clean(cs[1..], declared))
  }

  predicate AllClean(ss: seq<Section>, declared: set<string>) {
    ss == [] || (Clean(ss[0].components, declared) && AllClean(ss[1..], declared))
  }

  lemma {:induction false} SafePropsAreSafe(props: seq<Prop>)
    ensures forall p :: p in SafeProps(props) ==> p in props && !IsHandler(p) && !IsScript(p)
    ensures (forall p :: p in props ==> !IsHandler(p) && !IsScript(p)) ==> SafeProps(props) == props && forall id :: PropNotes(id, props) == []
    decreases |props|
  {
    if props != [] { SafePropsAreSafe(props[1..]); }
  }

  lemma RepairedIdIsNotBlank(draw: nat -> string, id: string, p: Pass)
    ensures Trim(RepairId(draw, id, p).0) != ""
  {
    TrimOfBlank(id);
    var fixed := RepairId(draw, id, p).0;
    TrimOfBlank(fixed);
    if Trim(id) == "" {
      assert fixed[0] == 'c' && fixed[0] in fixed;
    } else {
      var c :| c in id && !IsJsSpace(c);
      assert c in fixed;
    }
  }

  /** Joining lists of distinct ids that avoid each other. */
  lemma DistinctConcat(a: seq<string>, b: seq<string>)
    ensures Distinct(a + b) <==> Distinct(a) && Distinct(b) && Disjoint(b, set id | id in a)
  {
    var ab := a + b;
    if Distinct(ab) {
      forall i, j | 0 <= i < j < |a| ensures a[i] != a[j] {
        assert ab[i] == a[i] && ab[j] == a[j];
      }
      forall i, j | 0 <= i < j < |b| ensures b[i] != b[j] {
        assert ab[|a| + i] == b[i] && ab[|a| + j] == b[j];
      }
      forall i, j | 0 <= i < |a| && 0 <= j < |b| ensures a[i] != b[j] {
        assert ab[i] == a[i] && ab[|a| + j] == b[j];
      }
    } else {
      var i, j :| 0 <= i < j < |ab| && ab[i] == ab[j];
      if i < |a| <= j { assert a[i] in a && b[j - |a|] in b; }
    }
  }

  /** What repairing a forest does to the pass, and the exact condition for its ids to come out new. */
  ghost predicate PassRelates(p: Pass, p': Pass, ids: seq<string>) {
    && p'.seen == p.seen + (set id | id in ids)
    && (p'.allFresh <==> p.allFresh && Distinct(ids) && Disjoint(ids, p.seen))
    && p.declared <= p'.declared
    && (p.declared == Keys(p.contracts) ==> p'.declared == Keys(p'.contracts))
  }

  lemma PassRelatesInTurn(p: Pass, q: Pass, r: Pass, a: seq<string>, b: seq<string>)
    requires PassRelates(p, q, a) && PassRelates(q, r, b)
    ensures PassRelates(p, r, a + b)
  {
    DistinctConcat(a, b);
  }

  lemma DeclareKeyRelates(id: string, valueKey: Option<string>, p: Pass)
    ensures PassRelates(p, DeclareKey(id, valueKey, p), [])
    ensures valueKey.Some? && Trim(valueKey.value) != "" ==> Trim(valueKey.value) in DeclareKey(id, valueKey, p).declared
  {
    var p' := DeclareKey(id, valueKey, p);
    if p' != p {
      var n := |p.contracts|;
      assert p'.contracts[n].key == Trim(valueKey.value);
      assert forall i | 0 <= i < n :: p'.contracts[i] == p.contracts[i];
    }
  }

  lemma {:induction false} CleanMonotone(cs: seq<Component>, declared: set<string>, more: set<string>)
    requires Clean(cs, declared) && declared <= more
    ensures Clean(cs, more)
    decreases cs
  {
    if cs != [] {
      CleanMonotone(cs[0].children, declared, more);
      CleanMonotone(cs[1..], declared, more);
    }
  }

  lemma {:induction false} RepairedComponent(draw: nat -> string, c: Component, p: Pass)
    ensures var (c', p') := RepairComponent(draw, c, p);
      PassRelates(p, p', [c'.id] + Ids(c'.children)) && CleanNode(c', p'.declared) && Clean(c'.children, p'.declared)
    decreases c
  {
    var (id, p1) := RepairId(draw, c.id, p);
    RepairedIdIsNotBlank(draw, c.id, p);
    assert PassRelates(p, p1, [id]);
    SafePropsAreSafe(c.props);
    var p2 := p1.(notes := p1.notes + PropNotes(id, c.props));
    assert PassRelates(p1, p2, []);
    PassRelatesInTurn(p, p1, p2, [id], []);
    DeclareKeyRelates(id, c.valueKey, p2);
    var p3 := DeclareKey(id, c.valueKey, p2);
    PassRelatesInTurn(p, p2, p3, [id] + [], []);
    var (children, p4) := RepairForest(draw, c.children, p3);
    RepairedForest(draw, c.children, p3);
    PassRelatesInTurn(p, p3, p4, [id] + [] + [], Ids(children));
    assert [id] + [] + [] == [id];
  }

  lemma {:induction false} RepairedForest(draw: nat -> string, cs: seq<Component>, p: Pass)
    ensures var (cs', p') := RepairForest(draw, cs, p);
      PassRelates(p, p', Ids(cs')) && Clean(cs', p'.declared)
    decreases cs
  {
    if cs != [] {
      var (c, p1) := RepairComponent(draw, cs[0], p);
      RepairedComponent(draw, cs[0], p);
      var (rest, p2) := RepairForest(draw, cs[1..], p1);
      RepairedForest(draw, cs[1..], p1);
      PassRelatesInTurn(p, p1, p2, [c.id] + Ids(c.children), Ids(rest));
      CleanMonotone(c.children, p1.declared, p2.declared);
      assert ([c] + rest)[1..] == rest;
    }
  }

  lemma {:induction false} AllCleanMonotone(ss: seq<Section>, declared: set<string>, more: set<string>)
    requires AllClean(ss, declared) && declared <= more
    ensures AllClean(ss, more)
    decreases |ss|
  {
    if ss != [] {
      CleanMonotone(ss[0].components, declared, more);
      AllCleanMonotone(ss[1..], declared, more);
    }
  }

  lemma {:induction false} RepairedSections(draw: nat -> string, ss: seq<Section>, p: Pass)
    ensures var (ss', p') := RepairSections(draw, ss, p);
      PassRelates(p, p', AllIds(ss')) && AllClean(ss', p'.declared) && |ss'| == |ss|
    decreases |ss|
  {
    if ss != [] {
      var (cs, p1) := RepairForest(draw, ss[0].components, p);
      RepairedForest(draw, ss[0].components, p);
      var (rest, p2) := RepairSections(draw, ss[1..], p1);
      RepairedSections(draw, ss[1..], p1);
      PassRelatesInTurn(p, p1, p2, Ids(cs), AllIds(rest));
      CleanMonotone(cs, p1.declared, p2.declared);
      assert ([ss[0].(components := cs)] + rest)[1..] == rest;
    }
  }

  /** After one pass: no blank id, no inline handler, no script payload, and every non-blank value key
      has a contract. The ids of the whole forest are distinct exactly when no generated id was one
      already seen. */
  lemma RepairIsClean(draw: nat -> string, doc: Document)
    ensures var (doc', notes, allFresh) := ValidateAndRepair(draw, doc);
      && doc'.sections != []
      && AllClean(doc'.sections, Keys(doc'.contracts))
      && (Distinct(AllIds(doc'.sections)) <==> allFresh)
  {
    RepairedSections(draw, WithFallback(doc), StartPass(doc));
  }

  // ------------------------------------------------------------ the second run

  lemma {:induction false} CleanComponentIsKept(draw: nat -> string, c: Component, p: Pass)
    requires CleanNode(c, p.declared) && Clean(c.children, p.declared)
    requires Distinct([c.id] + Ids(c.children)) && Disjoint([c.id] + Ids(c.children), p.seen)
    ensures RepairComponent(draw, c, p) == (c, p.(seen := p.seen + set id | id in [c.id] + Ids(c.children)))
    decreases c
  {
    DistinctConcat([c.id], Ids(c.children));
    SafePropsAreSafe(c.props);
    assert c.id in [c.id] + Ids(c.children);
    var p1 := p.(seen := p.seen + {c.id});
    assert p.notes + [] == p.notes;
    assert RepairId(draw, c.id, p) == (c.id, p1);
    assert DeclareKey(c.id, c.valueKey, p1) == p1;
    CleanForestIsKept(draw, c.children, p1);
    assert p.seen + (set id | id in [c.id] + Ids(c.children)) == p1.seen + set id | id in Ids(c.children);
  }

  lemma {:induction false} CleanForestIsKept(draw: nat -> string, cs: seq<Component>, p: Pass)
    requires Clean(cs, p.declared) && Distinct(Ids(cs)) && Disjoint(Ids(cs), p.seen)
    ensures RepairForest(draw, cs, p) == (cs, p.(seen := p.seen + set id | id in Ids(cs)))
    decreases cs
  {
    if cs != [] {
      var own, ofRest := [cs[0].id] + Ids(cs[0].children), Ids(cs[1..]);
      assert Ids(cs) == own + ofRest;
      DistinctConcat(own, ofRest);
      CleanComponentIsKept(draw, cs[0], p);
      var p1 := p.(seen := p.seen + set id | id in own);
      CleanForestIsKept(draw, cs[1..], p1);
      assert p.seen + (set id | id in own + ofRest) == p1.seen + set id | id in ofRest;
      assert cs == [cs[0]] + cs[1..];
    } else {
      assert p.seen + (set id | id in Ids(cs)) == p.seen;
    }
  }

  lemma {:induction false} CleanSectionsAreKept(draw: nat -> string, ss: seq<Section>, p: Pass)
    requires AllClean(ss, p.declared) && Distinct(AllIds(ss)) && Disjoint(AllIds(ss), p.seen)
    ensures RepairSections(draw, ss, p).0 == ss
    ensures RepairSections(draw, ss, p).1 == p.(seen := RepairSections(draw, ss, p).1.seen)
    decreases |ss|
  {
    if ss != [] {
      var own := Ids(ss[0].components);
      var p1 := p.(seen := p.seen + set id | id in own);
      DistinctConcat(own, AllIds(ss[1..]));
      CleanForestIsKept(draw, ss[0].components, p);
      CleanSectionsAreKept(draw, ss[1..], p1);
      assert ss == [ss[0].(components := ss[0].components)] + ss[1..];
    }
  }

  /** The repair reaches its fixpoint in one pass exactly when every generated id was new: then a
      second run returns the same document without a note, whatever it would draw. */
  lemma OnePassSuffices(draw: nat -> string, again: nat -> string, doc: Document)
    ensures var (doc', _, allFresh) := ValidateAndRepair(draw, doc);
            var (doc'', notes, _) := ValidateAndRepair(again, doc');
            (doc'' == doc' && notes == []) <==> allFresh
  {
    RepairIsClean(draw, doc);
    var (doc', _, allFresh) := ValidateAndRepair(draw, doc);
    if allFresh {
      CleanSectionsAreKept(again, doc'.sections, StartPass(doc'));
    } else {
      RepairIsClean(again, doc');
      var (doc'', notes, _) := ValidateAndRepair(again, doc');
      if doc'' == doc' && notes == [] {
        NoNotesMeansFresh(again, doc'.sections, StartPass(doc'));
      }
    }
  }

  lemma {:induction false} NotesOnlyGrow(draw: nat -> string, cs: seq<Component>, p: Pass)
    ensures |p.notes| <= |RepairForest(draw, cs, p).1.notes|
    ensures |RepairForest(draw, cs, p).1.notes| == |p.notes| && p.allFresh ==> RepairForest(draw, cs, p).1.allFresh
    decreases cs
  {
    if cs != [] {
      var (id, p1) := RepairId(draw, cs[0].id, p);
      var p3 := DeclareKey(id, cs[0].valueKey, p1.(notes := p1.notes + PropNotes(id, cs[0].props)));
      NotesOnlyGrow(draw, cs[0].children, p3);
      NotesOnlyGrow(draw, cs[1..], RepairComponent(draw, cs[0], p).1);
    }
  }

  lemma {:induction false} NoNotesMeansFresh(draw: nat -> string, ss: seq<Section>, p: Pass)
    ensures |p.notes| <= |RepairSections(draw, ss, p).1.notes|
    ensures |RepairSections(draw, ss, p).1.notes| == |p.notes| && p.allFresh ==> RepairSections(draw, ss, p).1.allFresh
    decreases |ss|
  {
    if ss != [] {
      NotesOnlyGrow(draw, ss[0].components, p);
      NoNotesMeansFresh(draw, ss[1..], RepairForest(draw, ss[0].components, p).1);
    }
  }

  // ------------------------------------------------------------ the traversal of the source

  /** The sets and lists that one run of the repair fills. */
  class RepairRun {
    const draw: nat -> string
    var seen: set<string>
    var declared: set<string>
    var contracts: seq<Contract>
    var notes: seq<Note>
    var drawn: nat
    ghost var allFresh: bool

    ghost function View(): Pass
      reads this
    {
      Pass(seen, declared, contracts, notes, drawn, allFresh)
    }

    constructor (draw: nat -> string, contracts: seq<Contract>)
      ensures this.draw == draw && View() == Pass({}, Keys(contracts), contracts, [], 0, true)
    {
      this.draw := draw;
      seen, declared, this.contracts, notes, drawn, allFresh := {}, Keys(contracts), contracts, [], 0, true;
    }

    method DeduplicateId(id: string) returns (fixed: string)
      modifies this
      ensures (fixed, View()) == RepairId(draw, id, old(View()))
    {
      fixed := id;
      if Trim(id) == "" {
        fixed := "comp-" + draw(drawn);
        drawn := drawn + 1;
        notes := notes + [GeneratedId(fixed)];
      } else if id in seen {
        fixed := id + "-" + draw(drawn);
        drawn := drawn + 1;
        notes := notes + [DeduplicatedId(id, fixed)];
      }
      assert old(notes) + [] == old(notes);
      allFresh := allFresh && fixed !in seen;
      seen := seen + {fixed};
    }

    method SanitizeProps(id: string, props: seq<Prop>) returns (kept: seq<Prop>)
      modifies this`notes
      ensures kept == SafeProps(props) && notes == old(notes) + PropNotes(id, props)
    {
      kept := [];
      var i := 0;
      while i < |props|
        invariant i <= |props|
        invariant kept + SafeProps(props[i..]) == SafeProps(props)
        invariant notes + PropNotes(id, props[i..]) == old(notes) + PropNotes(id, props)
      {
        assert props[i..][1..] == props[i + 1..];
        if IsHandler(props[i]) {
          notes := notes + [RemovedHandler(id, props[i].key)];
        } else if IsScript(props[i]) {
          notes := notes + [RemovedScript(id, props[i].key)];
        } else {
          kept := kept + [props[i]];
        }
        i := i + 1;
      }
    }

    method Repair(c: Component) returns (repaired: Component)
      modifies this
      ensures (repaired, View()) == RepairComponent(draw, c, old(View()))
      decreases c
    {
      var id := DeduplicateId(c.id);
      var props := SanitizeProps(id, c.props);
      if c.valueKey.Some? && Trim(c.valueKey.value) != "" {
        var vk := Trim(c.valueKey.value);
        if vk !in declared {
          declared := declared + {vk};
          contracts := contracts + [Contract(vk, Some(id))];
          notes := notes + [DeclaredState(vk)];
        }
      }
      var children := RepairAll(c.children);
      repaired := Component(id, c.kind, props, c.valueKey, children);
    }

    method RepairAll(cs: seq<Component>) returns (repaired: seq<Component>)
      modifies this
      ensures (repaired, View()) == RepairForest(draw, cs, old(View()))
      decreases cs
    {
      repaired := [];
      var i := 0;
      assert cs[0..] == cs;
      while i < |cs|
        invariant i <= |cs|
        invariant repaired + RepairForest(draw, cs[i..], View()).0 == RepairForest(draw, cs, old(View())).0
        invariant RepairForest(draw, cs[i..], View()).1 == RepairForest(draw, cs, old(View())).1
      {
        assert cs[i..][1..] == cs[i + 1..];
        ghost var before := View();
        var c := Repair(cs[i]);
        assert RepairForest(draw, cs[i..], before).0 == [c] + RepairForest(draw, cs[i + 1..], View()).0;
        repaired := repaired + [c];
        i := i + 1;
      }
      assert cs[i..] == [] && repaired + [] == repaired;
    }
  }

  method ValidateAndRepairDocument(draw: nat -> string, doc: Document) returns (repaired: Document, notes: seq<Note>)
    ensures var (d, n, _) := ValidateAndRepair(draw, doc); repaired == d && notes == n
  {
    var run := new RepairRun(draw, doc.contracts);
    var sections := doc.sections;
    if |sections| == 0 {
      sections := [Section("main", [])];
      run.notes := [AddedFallbackSection];
    }
    ghost var start := run.View();
    var done: seq<Section> := [];
    var i := 0;
    assert sections[0..] == sections;
    while i < |sections|
      invariant i <= |sections|
      invariant done + RepairSections(draw, sections[i..], run.View()).0 == RepairSections(draw, sections, start).0
      invariant RepairSections(draw, sections[i..], run.View()).1 == RepairSections(draw, sections, start).1
    {
      assert sections[i..][1..] == sections[i + 1..];
      ghost var before := run.View();
      var cs := run.RepairAll(sections[i].components);
      assert RepairSections(draw, sections[i..], before).0
          == [sections[i].(components := cs)] + RepairSections(draw, sections[i + 1..], run.View()).0;
      done := done + [sections[i].(components := cs)];
      i := i + 1;
    }
    repaired, notes := Document(done, run.contracts), run.notes;
  }
}
