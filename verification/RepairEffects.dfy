/** What document self-repair renames, removes, declares and notes, as one visit of the components in order
    (`validateAndRepair` in src/lib/software-document.ts). */
module RepairEffects {
  import opened Common
  import opened DocumentRepair

  // ------------------------------------------------------------ what counts as unsafe

  /** The character is the letter, in either case. */
  predicate IsLetter(c: char, lower: char) { c == lower || ('a' <= lower <= 'z' && c as int == lower as int - 32) }

  /** The text says the word at `i`, in whatever case. */
  predicate Says(s: string, i: int, word: string) {
    0 <= i <= |s| - |word| && forall k | 0 <= k < |word| :: IsLetter(s[i + k], word[k])
  }

  predicate SaysSomewhere(s: string, word: string) { exists i | 0 <= i <= |s| :: Says(s, i, word) }

  lemma LoweredIs(c: char, lower: char)
    requires !('A' <= lower <= 'Z')
    ensures LowerChar(c) == lower <==> IsLetter(c, lower)
  {
  }

  lemma LowerContains(s: string, word: string)
    requires forall c :: c in word ==> !('A' <= c <= 'Z')
    ensures Contains(Lower(s), word) <==> SaysSomewhere(s, word)
  {
    var low := Lower(s);
    forall i | 0 <= i <= |s| ensures word <= low[i..] <==> Says(s, i, word) {
      if word <= low[i..] {
        forall k | 0 <= k < |word| ensures IsLetter(s[i + k], word[k]) {
          assert low[i..][k] == word[k] && word[k] in word;
          LoweredIs(s[i + k], word[k]);
        }
      } else if Says(s, i, word) {
        forall k | 0 <= k < |word| ensures low[i..][k] == word[k] {
          assert IsLetter(s[i + k], word[k]) && word[k] in word;
          LoweredIs(s[i + k], word[k]);
        }
      }
    }
  }

  /** A text under a key that begins with "on", in any case. */
  predicate InlineHandler(p: Prop) { p.value.Text? && Says(p.key, 0, "on") }

  predicate ScriptText(p: Prop) {
    p.value.Text? && (SaysSomewhere(p.value.text, "javascript:") || SaysSomewhere(p.value.text, "<script"))
  }

  lemma UnsafeIs(p: Prop)
    ensures IsHandler(p) <==> InlineHandler(p)
    ensures IsScript(p) <==> ScriptText(p)
  {
    var low := Lower(p.key);
    if |p.key| >= 2 {
      LoweredIs(p.key[0], 'o');
      LoweredIs(p.key[1], 'n');
      assert low[..2] == [low[0], low[1]];
    }
    if p.value.Text? {
      LowerContains(p.value.text, "javascript:");
      LowerContains(p.value.text, "<script");
    }
  }

  // ------------------------------------------------------------ the visit

  /** Components in visiting order: each before its children. */
  function Nodes(cs: seq<Component>): seq<Component>
    decreases cs
  {
    if cs == [] then [] else [cs[0]] + Nodes(cs[0].children) + Nodes(cs[1..])
  }

  function AllNodes(ss: seq<Section>): seq<Component> {
    if ss == [] then [] else Nodes(ss[0].components) + AllNodes(ss[1..])
  }

  /** What has been gathered: ids given so far, random suffixes used, contracts, notes. */
  datatype Tally = Tally(seen: set<string>, drawn: nat, contracts: seq<Contract>, notes: seq<Note>)

  function TallyOf(p: Pass): Tally { Tally(p.seen, p.drawn, p.contracts, p.notes) }

  function Removals(id: string, props: seq<Prop>): seq<Note> {
    if props == [] then []
    else
      (if InlineHandler(props[0]) then [RemovedHandler(id, props[0].key)]
       else if ScriptText(props[0]) then [RemovedScript(id, props[0].key)]
       else [])
      + Removals(id, props[1..])
  }

  predicate HasContract(contracts: seq<Contract>, key: string) { exists i | 0 <= i < |contracts| :: contracts[i].key == key }

  /** A visit of one component: a blank id becomes "comp-" with a suffix, an id given before gets "-" and a
      suffix; unsafe props are noted; a trimmed, non-empty key without a contract gets one that names the
      component. */
  function Visit(draw: nat -> string, c: Component, t: Tally): (string, Tally) {
    var blank, again := Trim(c.id) == "", Trim(c.id) != "" && c.id in t.seen;
    var id := if blank then "comp-" + draw(t.drawn) else if again then c.id + "-" + draw(t.drawn) else c.id;
    var idNotes := if blank then [GeneratedId(id)] else if again then [DeduplicatedId(c.id, id)] else [];
    var key := if c.valueKey.Some? then Trim(c.valueKey.value) else "";
    var missing := key != "" && !HasContract(t.contracts, key);
    (id, Tally(t.seen + {id}, t.drawn + (if blank || again then 1 else 0),
               t.contracts + (if missing then [Contract(key, Some(id))] else []),
               t.notes + idNotes + Removals(id, c.props) + (if missing then [DeclaredState(key)] else [])))
  }

  function VisitAll(draw: nat -> string, nodes: seq<Component>, t: Tally): (seq<string>, Tally) {
    if nodes == [] then ([], t)
    else
      var (id, t1) := Visit(draw, nodes[0], t);
      var (ids, t2) := VisitAll(draw, nodes[1..], t1);
      ([id] + ids, t2)
  }

  lemma {:induction false} VisitInTurn(draw: nat -> string, a: seq<Component>, b: seq<Component>, t: Tally)
    ensures var (ids, t1) := VisitAll(draw, a, t);
            var (more, t2) := VisitAll(draw, b, t1);
            VisitAll(draw, a + b, t) == (ids + more, t2)
    decreases |a|
  {
    if a == [] {
      assert a + b == b;
      assert forall xs: seq<string> :: [] + xs == xs;
    } else {
      assert (a + b)[1..] == a[1..] + b;
      var (id, t1) := Visit(draw, a[0], t);
      VisitInTurn(draw, a[1..], b, t1);
      var (ids, t2) := VisitAll(draw, a[1..], t1);
      assert [id] + (ids + VisitAll(draw, b, t2).0) == ([id] + ids) + VisitAll(draw, b, t2).0;
    }
  }

  lemma {:induction false} RemovalsAreNoted(id: string, props: seq<Prop>)
    ensures PropNotes(id, props) == Removals(id, props)
    decreases |props|
  {
    if props != [] {
      UnsafeIs(props[0]);
      RemovalsAreNoted(id, props[1..]);
    }
  }

  /** The pass after the component itself, before its children. */
  function Entered(draw: nat -> string, c: Component, p: Pass): (string, Pass) {
    var (id, q) := RepairId(draw, c.id, p);
    (id, DeclareKey(id, c.valueKey, q.(notes := q.notes + PropNotes(id, c.props))))
  }

  lemma EnteringVisits(draw: nat -> string, c: Component, p: Pass)
    requires p.declared == Keys(p.contracts)
    ensures var (id, q) := Entered(draw, c, p);
            Visit(draw, c, TallyOf(p)) == (id, TallyOf(q)) && q.declared == Keys(q.contracts)
  {
    var (id, q) := RepairId(draw, c.id, p);
    RemovalsAreNoted(id, c.props);
    var noted := q.(notes := q.notes + PropNotes(id, c.props));
    var key := if c.valueKey.Some? then Trim(c.valueKey.value) else "";
    assert key in Keys(p.contracts) <==> HasContract(p.contracts, key);
    DeclareKeyRelates(id, c.valueKey, noted);
    assert p.contracts + [] == p.contracts && p.notes + [] == p.notes;
    assert noted.notes + [] == noted.notes;
  }

  lemma {:induction false} ForestIsVisited(draw: nat -> string, cs: seq<Component>, p: Pass)
    requires p.declared == Keys(p.contracts)
    ensures var (cs', p') := RepairForest(draw, cs, p);
            VisitAll(draw, Nodes(cs), TallyOf(p)) == (Ids(cs'), TallyOf(p')) && p'.declared == Keys(p'.contracts)
    decreases cs
  {
    if cs != [] {
      var (id, p1) := Entered(draw, cs[0], p);
      var (children, p2) := RepairForest(draw, cs[0].children, p1);
      var (rest, p3) := RepairForest(draw, cs[1..], p2);
      var c := RepairComponent(draw, cs[0], p).0;
      EnteringVisits(draw, cs[0], p);
      ForestIsVisited(draw, cs[0].children, p1);
      ForestIsVisited(draw, cs[1..], p2);
      VisitOne(draw, cs[0], TallyOf(p));
      VisitInTurn(draw, [cs[0]], Nodes(cs[0].children), TallyOf(p));
      VisitInTurn(draw, [cs[0]] + Nodes(cs[0].children), Nodes(cs[1..]), TallyOf(p));
      assert RepairForest(draw, cs, p) == ([c] + rest, p3) && ([c] + rest)[1..] == rest;
    }
  }

  lemma VisitOne(draw: nat -> string, c: Component, t: Tally)
    ensures VisitAll(draw, [c], t) == ([Visit(draw, c, t).0], Visit(draw, c, t).1)
  {
    var (id, t1) := Visit(draw, c, t);
    assert [c][1..] == [] && VisitAll(draw, [], t1) == ([], t1);
    assert [id] + [] == [id];
  }

  lemma {:induction false} SectionsAreVisited(draw: nat -> string, ss: seq<Section>, p: Pass)
    requires p.declared == Keys(p.contracts)
    ensures var (ss', p') := RepairSections(draw, ss, p);
            VisitAll(draw, AllNodes(ss), TallyOf(p)) == (AllIds(ss'), TallyOf(p'))
    decreases |ss|
  {
    if ss != [] {
      var (cs, p1) := RepairForest(draw, ss[0].components, p);
      var (rest, p2) := RepairSections(draw, ss[1..], p1);
      ForestIsVisited(draw, ss[0].components, p);
      SectionsAreVisited(draw, ss[1..], p1);
      VisitInTurn(draw, Nodes(ss[0].components), AllNodes(ss[1..]), TallyOf(p));
      assert ([ss[0].(components := cs)] + rest)[1..] == rest;
    }
  }

  /** The repaired ids, the contracts and the notes are those of one visit of all components in order. A
      document without sections gets an empty one, "main", and that is noted first. */
  lemma RepairIsOneVisit(draw: nat -> string, doc: Document)
    ensures var (doc', notes, _) := ValidateAndRepair(draw, doc);
            var (ids, t) := VisitAll(draw, AllNodes(doc.sections),
                                     Tally({}, 0, doc.contracts, if doc.sections == [] then [AddedFallbackSection] else []));
            && AllIds(doc'.sections) == ids && doc'.contracts == t.contracts && notes == t.notes
            && (doc.sections == [] ==> doc'.sections == [Section("main", [])])
  {
    SectionsAreVisited(draw, WithFallback(doc), StartPass(doc));
    if doc.sections == [] {
      var ss := [Section("main", [])];
      assert ss[1..] == [] && AllNodes(ss) == Nodes([]) + AllNodes([]);
      assert RepairSections(draw, ss, StartPass(doc)).0 == [ss[0].(components := [])] + [];
    }
  }
}
