/** What document self-repair leaves as it is (`validateAndRepair` in src/lib/software-document.ts). */
module RepairKeeps {
  import opened Common
  import opened DocumentRepair

  predicate Unsafe(p: Prop) { IsHandler(p) || IsScript(p) }

  /** Exactly the unsafe props are gone. */
  lemma {:induction false} OnlyUnsafePropsGo(props: seq<Prop>, p: Prop)
    ensures multiset(SafeProps(props))[p] == if Unsafe(p) then 0 else multiset(props)[p]
    decreases |props|
  {
    if props != [] {
      OnlyUnsafePropsGo(props[1..], p);
      assert props == [props[0]] + props[1..];
    }
  }

  /** And the others stay in their order: what is kept of a list is what is kept of its parts. */
  lemma {:induction false} PropsKeepTheirOrder(a: seq<Prop>, b: seq<Prop>)
    ensures SafeProps(a + b) == SafeProps(a) + SafeProps(b)
    decreases |a|
  {
    if a == [] {
      assert a + b == b;
    } else {
      assert (a + b)[1..] == a[1..] + b;
      PropsKeepTheirOrder(a[1..], b);
    }
  }

  /** The same forest but for ids and unsafe props. */
  predicate Mended(cs: seq<Component>, cs': seq<Component>)
    decreases cs
  {
    && |cs| == |cs'|
    && (cs != [] ==>
          && cs'[0].kind == cs[0].kind && cs'[0].valueKey == cs[0].valueKey && cs'[0].props == SafeProps(cs[0].props)
          && Mended(cs[0].children, cs'[0].children) && Mended(cs[1..], cs'[1..]))
  }

  predicate AllMended(ss: seq<Section>, ss': seq<Section>) {
    && |ss| == |ss'|
    && (ss != [] ==> ss'[0].id == ss[0].id && Mended(ss[0].components, ss'[0].components) && AllMended(ss[1..], ss'[1..]))
  }

  lemma {:induction false} ForestIsMended(draw: nat -> string, cs: seq<Component>, p: Pass)
    ensures Mended(cs, RepairForest(draw, cs, p).0)
    decreases cs
  {
    if cs != [] {
      var (c, p1) := RepairComponent(draw, cs[0], p);
      var (rest, _) := RepairForest(draw, cs[1..], p1);
      var (id, q) := RepairId(draw, cs[0].id, p);
      ForestIsMended(draw, cs[0].children,
                     DeclareKey(id, cs[0].valueKey, q.(notes := q.notes + PropNotes(id, cs[0].props))));
      ForestIsMended(draw, cs[1..], p1);
      assert ([c] + rest)[1..] == rest;
    }
  }

  lemma {:induction false} SectionsAreMended(draw: nat -> string, ss: seq<Section>, p: Pass)
    ensures AllMended(ss, RepairSections(draw, ss, p).0)
    decreases |ss|
  {
    if ss != [] {
      var (cs, p1) := RepairForest(draw, ss[0].components, p);
      ForestIsMended(draw, ss[0].components, p);
      SectionsAreMended(draw, ss[1..], p1);
      var rest := RepairSections(draw, ss[1..], p1).0;
      assert ([ss[0].(components := cs)] + rest)[1..] == rest;
    }
  }

  /** An id is kept exactly when it is not blank and no component before it has it. */
  predicate KeepsFirsts(before: seq<string>, after: seq<string>, seen: set<string>) {
    && |before| == |after|
    && forall k: nat :: k < |before| ==>
         (after[k] == before[k] <==> Trim(before[k]) != "" && before[k] !in seen && before[k] !in after[..k])
  }

  function SetOf(ids: seq<string>): set<string> { set id | id in ids }

  lemma KeepsFirstsInTurn(a: seq<string>, a': seq<string>, b: seq<string>, b': seq<string>, seen: set<string>)
    requires KeepsFirsts(a, a', seen) && KeepsFirsts(b, b', seen + SetOf(a'))
    ensures KeepsFirsts(a + b, a' + b', seen)
  {
    var ab, ab' := a + b, a' + b';
    forall k: nat | k < |ab|
      ensures ab'[k] == ab[k] <==> Trim(ab[k]) != "" && ab[k] !in seen && ab[k] !in ab'[..k]
    {
      if k < |a| {
        assert ab'[..k] == a'[..k];
      } else {
        assert ab'[..k] == a' + b'[..k - |a|];
      }
    }
  }

  lemma IdIsKeptWhenFirst(draw: nat -> string, id: string, p: Pass)
    ensures KeepsFirsts([id], [RepairId(draw, id, p).0], p.seen)
  {
    var fixed := RepairId(draw, id, p).0;
    RepairedIdIsNotBlank(draw, id, p);
    assert [fixed][..0] == [];
    if Trim(id) != "" && id in p.seen { assert |fixed| > |id|; }
  }

  lemma {:induction false} ForestKeepsFirsts(draw: nat -> string, cs: seq<Component>, p: Pass)
    ensures KeepsFirsts(Ids(cs), Ids(RepairForest(draw, cs, p).0), p.seen)
    decreases cs
  {
    if cs != [] {
      var (id, p1) := RepairId(draw, cs[0].id, p);
      var p2 := p1.(notes := p1.notes + PropNotes(id, cs[0].props));
      var p3 := DeclareKey(id, cs[0].valueKey, p2);
      var (children, p4) := RepairForest(draw, cs[0].children, p3);
      var rest := RepairForest(draw, cs[1..], p4).0;
      IdIsKeptWhenFirst(draw, cs[0].id, p);
      ForestKeepsFirsts(draw, cs[0].children, p3);
      RepairedForest(draw, cs[0].children, p3);
      ForestKeepsFirsts(draw, cs[1..], p4);
      assert p3.seen == p.seen + SetOf([id]);
      KeepsFirstsInTurn([cs[0].id], [id], Ids(cs[0].children), Ids(children), p.seen);
      assert p4.seen == p.seen + SetOf([id] + Ids(children));
      KeepsFirstsInTurn([cs[0].id] + Ids(cs[0].children), [id] + Ids(children), Ids(cs[1..]), Ids(rest), p.seen);
      var c := RepairComponent(draw, cs[0], p).0;
      assert RepairForest(draw, cs, p).0 == [c] + rest && ([c] + rest)[1..] == rest;
    }
  }

  lemma {:induction false} SectionsKeepFirsts(draw: nat -> string, ss: seq<Section>, p: Pass)
    ensures KeepsFirsts(AllIds(ss), AllIds(RepairSections(draw, ss, p).0), p.seen)
    decreases |ss|
  {
    if ss != [] {
      var (cs, p1) := RepairForest(draw, ss[0].components, p);
      var rest := RepairSections(draw, ss[1..], p1).0;
      ForestKeepsFirsts(draw, ss[0].components, p);
      RepairedForest(draw, ss[0].components, p);
      SectionsKeepFirsts(draw, ss[1..], p1);
      assert p1.seen == p.seen + SetOf(Ids(cs));
      KeepsFirstsInTurn(Ids(ss[0].components), Ids(cs), AllIds(ss[1..]), AllIds(rest), p.seen);
      assert ([ss[0].(components := cs)] + rest)[1..] == rest;
    }
  }

  /** The trimmed keys that components of the forest are bound to. */
  function KeysUsed(cs: seq<Component>): set<string>
    decreases cs
  {
    if cs == [] then {}
    else
      (if cs[0].valueKey.Some? && Trim(cs[0].valueKey.value) != "" then {Trim(cs[0].valueKey.value)} else {})
      + KeysUsed(cs[0].children) + KeysUsed(cs[1..])
  }

  function AllKeysUsed(ss: seq<Section>): set<string> {
    if ss == [] then {} else KeysUsed(ss[0].components) + AllKeysUsed(ss[1..])
  }

  /** Contracts are only added at the end, each for a key in `used` that had none. */
  ghost predicate Declares(p: Pass, p': Pass, used: set<string>) {
    && p.contracts <= p'.contracts && p.declared <= p'.declared <= p.declared + used
    && (forall i: nat :: |p.contracts| <= i < |p'.contracts| ==>
          p'.contracts[i].key in p'.declared && p'.contracts[i].key !in p.declared)
    && (forall i: nat, j: nat :: |p.contracts| <= i < j < |p'.contracts| ==> p'.contracts[i].key != p'.contracts[j].key)
  }

  lemma DeclaresInTurn(p: Pass, q: Pass, r: Pass, a: set<string>, b: set<string>)
    requires Declares(p, q, a) && Declares(q, r, b)
    ensures Declares(p, r, a + b)
  {
    assert forall i: nat :: i < |q.contracts| ==> r.contracts[i] == q.contracts[i];
  }

  lemma {:induction false} ForestDeclares(draw: nat -> string, cs: seq<Component>, p: Pass)
    ensures Declares(p, RepairForest(draw, cs, p).1, KeysUsed(cs))
    decreases cs
  {
    if cs != [] {
      var (id, p1) := RepairId(draw, cs[0].id, p);
      var p2 := p1.(notes := p1.notes + PropNotes(id, cs[0].props));
      var p3 := DeclareKey(id, cs[0].valueKey, p2);
      var (_, p4) := RepairForest(draw, cs[0].children, p3);
      var own := if cs[0].valueKey.Some? && Trim(cs[0].valueKey.value) != "" then {Trim(cs[0].valueKey.value)} else {};
      assert Declares(p, p3, own);
      ForestDeclares(draw, cs[0].children, p3);
      ForestDeclares(draw, cs[1..], p4);
      DeclaresInTurn(p, p3, p4, own, KeysUsed(cs[0].children));
      DeclaresInTurn(p, p4, RepairForest(draw, cs[1..], p4).1, own + KeysUsed(cs[0].children), KeysUsed(cs[1..]));
    }
  }

  lemma {:induction false} SectionsDeclare(draw: nat -> string, ss: seq<Section>, p: Pass)
    ensures Declares(p, RepairSections(draw, ss, p).1, AllKeysUsed(ss))
    decreases |ss|
  {
    if ss != [] {
      var p1 := RepairForest(draw, ss[0].components, p).1;
      ForestDeclares(draw, ss[0].components, p);
      SectionsDeclare(draw, ss[1..], p1);
      DeclaresInTurn(p, p1, RepairSections(draw, ss[1..], p1).1, KeysUsed(ss[0].components), AllKeysUsed(ss[1..]));
    }
  }

  /** Repair changes no more than it must. The sections and the shape of the forest stay, with every
      component's type, key and safe props; an id changes exactly when it is blank or an earlier
      component has it; the contracts stay, and new ones follow for keys in use that had none. */
  lemma RepairKeepsTheRest(draw: nat -> string, doc: Document)
    ensures var (doc', _, _) := ValidateAndRepair(draw, doc);
            && AllMended(WithFallback(doc), doc'.sections)
            && KeepsFirsts(AllIds(doc.sections), AllIds(doc'.sections), {})
            && doc.contracts <= doc'.contracts
            && forall i: nat :: |doc.contracts| <= i < |doc'.contracts| ==>
                 doc'.contracts[i].key in AllKeysUsed(doc.sections) && doc'.contracts[i].key !in Keys(doc'.contracts[..i])
  {
    var (doc', _, _) := ValidateAndRepair(draw, doc);
    var ss, p := WithFallback(doc), StartPass(doc);
    var p' := RepairSections(draw, ss, p).1;
    SectionsAreMended(draw, ss, p);
    SectionsKeepFirsts(draw, ss, p);
    SectionsDeclare(draw, ss, p);
    forall i: nat | |doc.contracts| <= i < |doc'.contracts|
      ensures doc'.contracts[i].key in AllKeysUsed(doc.sections) && doc'.contracts[i].key !in Keys(doc'.contracts[..i])
    {
      assert doc'.contracts[i].key in p'.declared && doc'.contracts[i].key !in p.declared;
      assert forall j: nat :: j < |doc.contracts| ==> doc'.contracts[j] == doc.contracts[j];
    }
  }
}
