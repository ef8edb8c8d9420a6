/** Moving a component to another region (src/lib/software-document.ts). */
module ComponentMoves {
  import opened Common
  import opened SoftwareDocument

  datatype MoveError = ComponentNotFound | TargetRegionNotFound

  /** Index of the first component with the id, or the length if there is none. */
  function Position(cs: seq<Component>, id: string): (k: nat)
    ensures k <= |cs| && (k < |cs| ==> cs[k].id == id)
    ensures forall i: nat :: i < k ==> cs[i].id != id
  {
    if cs == [] then 0
    else if cs[0].id == id then 0
    else
      var k := Position(cs[1..], id);
      assert forall i: nat :: 0 < i < k + 1 ==> cs[i] == cs[1..][i - 1];
      1 + k
  }

  predicate Contains(cs: seq<Component>, id: string) { Position(cs, id) < |cs| }

  /** Index of the first section holding the component, or the length if there is none. */
  function Home(sections: seq<Section>, id: string): (k: nat)
    ensures k <= |sections| && (k < |sections| ==> Contains(sections[k].components, id))
    ensures forall i: nat :: i < k ==> !Contains(sections[i].components, id)
  {
    if sections == [] then 0
    else if Contains(sections[0].components, id) then 0
    else
      var k := Home(sections[1..], id);
      assert forall i: nat :: 0 < i < k + 1 ==> sections[i] == sections[1..][i - 1];
      1 + k
  }

  /** Index of the first section with the id, or the length if there is none. */
  function Region(sections: seq<Section>, id: string): (k: nat)
    ensures k <= |sections| && (k < |sections| ==> sections[k].id == id)
    ensures forall i: nat :: i < k ==> sections[i].id != id
  {
    if sections == [] then 0
    else if sections[0].id == id then 0
    else
      var k := Region(sections[1..], id);
      assert forall i: nat :: 0 < i < k + 1 ==> sections[i] == sections[1..][i - 1];
      1 + k
  }

  function RemoveAt<T>(xs: seq<T>, k: nat): seq<T>
    requires k < |xs|
  {
    xs[..k] + xs[k + 1..]
  }

  function InsertAt<T>(xs: seq<T>, k: nat, x: T): seq<T>
    requires k <= |xs|
  {
    xs[..k] + [x] + xs[k..]
  }

  function TakeOut(sections: seq<Section>, s: nat, k: nat): seq<Section>
    requires s < |sections| && k < |sections[s].components|
  {
    sections[s := sections[s].(components := RemoveAt(sections[s].components, k))]
  }

  function PutIn(sections: seq<Section>, s: nat, k: nat, c: Component): seq<Section>
    requires s < |sections| && k <= |sections[s].components|
  {
    sections[s := sections[s].(components := InsertAt(sections[s].components, k, c))]
  }

  /** A component with props is tagged with its new section; one without stays untagged. */
  function Retagged(c: Component, region: string): Component {
    if c.props.Some? then c.(props := Some(c.props.value["section" := Text(region)])) else c
  }

  /** The tag names the new section, everything else stays. */
  lemma TagNamesTheSection(c: Component, region: string)
    ensures var moved := Retagged(c, region);
      && moved.id == c.id && moved.rest == c.rest && (c.props == None ==> moved.props == None)
      && (c.props.Some? ==>
            && moved.props.Some? && "section" in moved.props.value && moved.props.value["section"] == Text(region)
            && moved.props.value - {"section"} == c.props.value - {"section"})
  {
  }

  /** The requested index if it fits, the end of the list otherwise. */
  function Slot(cs: seq<Component>, index: Option<int>): (k: nat)
    ensures k <= |cs|
  {
    if index.Some? && 0 <= index.value <= |cs| then index.value else |cs|
  }

  function Moved(sections: seq<Section>, id: string, region: string, index: Option<int>): Result<seq<Section>, MoveError> {
    var s := Home(sections, id);
    if s == |sections| then Err(ComponentNotFound)
    else
      var k := Position(sections[s].components, id);
      var c, without := sections[s].components[k], TakeOut(sections, s, k);
      var t := Region(without, region);
      if t == |without| then Err(TargetRegionNotFound)
      else Ok(PutIn(without, t, Slot(without[t].components, index), Retagged(c, region)))
  }

  predicate IsExtracted(sections: seq<Section>, id: string, without: seq<Section>, c: Component) {
    var s := Home(sections, id);
    && s < |sections|
    && var k := Position(sections[s].components, id);
       without == TakeOut(sections, s, k) && c == sections[s].components[k]
  }

  method FindPosition(cs: seq<Component>, id: string) returns (k: nat)
    ensures k == Position(cs, id)
  {
    k := 0;
    while k < |cs|
      invariant k <= |cs| && Position(cs, id) == k + Position(cs[k..], id)
    {
      if cs[k].id == id { return; }
      assert cs[k..][1..] == cs[k + 1..];
      k := k + 1;
    }
  }

  method ExtractComponent(sections: seq<Section>, id: string) returns (without: seq<Section>, extracted: Option<Component>)
    ensures extracted.None? <==> Home(sections, id) == |sections|
    ensures extracted.Some? ==> IsExtracted(sections, id, without, extracted.value)
  {
    without, extracted := sections, None;
    var s := 0;
    while s < |sections|
      invariant s <= |sections| && without == sections && extracted.None?
      invariant Home(sections, id) == s + Home(sections[s..], id)
    {
      var cs := sections[s].components;
      var pos := FindPosition(cs, id);
      if pos < |cs| {
        extracted := Some(cs[pos]);
        without := sections[s := sections[s].(components := cs[..pos] + cs[pos + 1..])];
        return;
      }
      assert sections[s..][1..] == sections[s + 1..];
      s := s + 1;
    }
  }

  method FindSection(sections: seq<Section>, region: string) returns (t: nat)
    ensures t == Region(sections, region)
  {
    t := 0;
    while t < |sections| && sections[t].id != region
      invariant t <= |sections| && Region(sections, region) == t + Region(sections[t..], region)
    {
      assert sections[t..][1..] == sections[t + 1..];
      t := t + 1;
    }
  }

  method InsertComponent(sections: seq<Section>, t: nat, index: Option<int>, c: Component) returns (r: seq<Section>)
    requires t < |sections|
    ensures r == PutIn(sections, t, Slot(sections[t].components, index), c)
  {
    var target := sections[t].components;
    if index.Some? && index.value >= 0 && index.value <= |target| {
      target := target[..index.value] + [c] + target[index.value..];
    } else {
      target := target + [c];
      assert target == InsertAt(sections[t].components, |sections[t].components|, c);
    }
    r := sections[t := sections[t].(components := target)];
  }

  method MoveComponent(doc: Document, id: string, region: string, index: Option<int>)
    returns (r: Result<Document, MoveError>)
    ensures match Moved(doc.sections, id, region, index)
            case Err(e) => r == Err(e)
            case Ok(sections) => r == Ok(doc.(sections := sections))
  {
    var cloned, extracted := ExtractComponent(doc.sections, id);
    if extracted.None? { return Err(ComponentNotFound); }
    var moved := Retagged(extracted.value, region);
    var t := FindSection(cloned, region);
    if t == |cloned| { return Err(TargetRegionNotFound); }
    cloned := InsertComponent(cloned, t, index, moved);
    r := Ok(doc.(sections := cloned));
  }

  // What a move does

  function AllComponents(sections: seq<Section>): multiset<Component> {
    if sections == [] then multiset{}
    else AllComponents(sections[..|sections| - 1]) + multiset(sections[|sections| - 1].components)
  }

  lemma RemoveAfterInsert<T>(xs: seq<T>, k: nat, x: T)
    requires k <= |xs|
    ensures InsertAt(xs, k, x)[k] == x && RemoveAt(InsertAt(xs, k, x), k) == xs
  {
  }

  lemma SwapLast<T>(x: multiset<T>, y: multiset<T>, s: multiset<T>, c: multiset<T>, last: multiset<T>)
    requires x + s == y + c
    ensures (x + last) + s == (y + last) + c
  {
    assert (x + last) + s == (x + s) + last;
  }

  lemma {:induction false} ReplacedSection(sections: seq<Section>, s: nat, section: Section)
    requires s < |sections|
    ensures AllComponents(sections[s := section]) + multiset(sections[s].components)
         == AllComponents(sections) + multiset(section.components)
    decreases |sections|
  {
    var now, last := sections[s := section], |sections| - 1;
    if s < last {
      assert now[..last] == sections[..last][s := section];
      ReplacedSection(sections[..last], s, section);
      SwapLast(AllComponents(now[..last]), AllComponents(sections[..last]), multiset(sections[s].components),
               multiset(section.components), multiset(sections[last].components));
    } else {
      assert now[..last] == sections[..last];
    }
  }

  lemma RemoveCounts(cs: seq<Component>, k: nat)
    requires k < |cs|
    ensures multiset(cs) == multiset(RemoveAt(cs, k)) + multiset{cs[k]}
  {
    assert cs == cs[..k] + [cs[k]] + cs[k + 1..];
  }

  lemma Cancel<T>(x: multiset<T>, y: multiset<T>, s: multiset<T>, one: multiset<T>)
    requires y + (s + one) == x + s
    ensures x == y + one
  {
    forall c ensures x[c] == (y + one)[c] { assert (y + (s + one))[c] == (x + s)[c]; }
  }

  lemma TakeOutCounts(sections: seq<Section>, s: nat, k: nat)
    requires s < |sections| && k < |sections[s].components|
    ensures AllComponents(sections) == AllComponents(TakeOut(sections, s, k)) + multiset{sections[s].components[k]}
  {
    var cs, section := sections[s].components, TakeOut(sections, s, k)[s];
    ReplacedSection(sections, s, section);
    RemoveCounts(cs, k);
    Cancel(AllComponents(sections), AllComponents(TakeOut(sections, s, k)), multiset(section.components), multiset{cs[k]});
  }

  /** A move takes the first component with the id out of its section and puts it at the requested
      place of the target, or at its end. Taking it out again gives the same document as taking it out
      of the original: every other component keeps its section and its place among the others. */
  lemma MoveKeepsTheRest(sections: seq<Section>, id: string, region: string, index: Option<int>)
    ensures Moved(sections, id, region, index) == Err(ComponentNotFound)
       <==> forall s: nat :: s < |sections| ==> forall c :: c in sections[s].components ==> c.id != id
    ensures Moved(sections, id, region, index).Ok? ==>
              var now := Moved(sections, id, region, index).value;
              var s, t := Home(sections, id), Region(sections, region);
              && s < |sections| && t < |sections| == |now|
              && var k := Position(sections[s].components, id);
                 var without := TakeOut(sections, s, k);
                 var p := Slot(without[t].components, index);
              && p < |now[t].components| && TakeOut(now, t, p) == without
              && now[t].components[p] == Retagged(sections[s].components[k], region)
              && AllComponents(now) + multiset{sections[s].components[k]}
                 == AllComponents(sections) + multiset{Retagged(sections[s].components[k], region)}
  {
    var s := Home(sections, id);
    if s < |sections| {
      var k := Position(sections[s].components, id);
      var c, without := sections[s].components[k], TakeOut(sections, s, k);
      assert c in sections[s].components;
      RegionUnaffected(sections, without, region);
      var t := Region(without, region);
      if t < |without| {
        var p := Slot(without[t].components, index);
        var now := PutIn(without, t, p, Retagged(c, region));
        RemoveAfterInsert(without[t].components, p, Retagged(c, region));
        TakeOutCounts(sections, s, k);
        TakeOutCounts(now, t, p);
      }
    } else {
      forall s: nat, c | s < |sections| && c in sections[s].components ensures c.id != id {
        assert !Contains(sections[s].components, id);
      }
    }
  }

  lemma {:induction false} RegionUnaffected(a: seq<Section>, b: seq<Section>, region: string)
    requires |a| == |b| && forall i: nat :: i < |a| ==> a[i].id == b[i].id
    ensures Region(a, region) == Region(b, region)
    decreases |a|
  {
    if a != [] { RegionUnaffected(a[1..], b[1..], region); }
  }

  /** The component's id occurs nowhere else. */
  predicate OnlyAt(sections: seq<Section>, id: string, s: nat, k: nat) {
    && s < |sections| && k < |sections[s].components| && sections[s].components[k].id == id
    && forall i: nat, j: nat :: i < |sections| && j < |sections[i].components| && sections[i].components[j].id == id
         ==> i == s && j == k
  }

  lemma FoundWhereItIs(sections: seq<Section>, id: string, s: nat, k: nat)
    requires OnlyAt(sections, id, s, k)
    ensures Home(sections, id) == s && Position(sections[s].components, id) == k
  {
    assert Contains(sections[s].components, id);
  }

  /** A move, for a component whose id is unique. */
  lemma MovedWhereItIs(sections: seq<Section>, id: string, s: nat, k: nat, region: string, index: Option<int>)
    requires OnlyAt(sections, id, s, k) && Region(sections, region) < |sections|
    ensures var t, without := Region(sections, region), TakeOut(sections, s, k);
            Moved(sections, id, region, index)
              == Ok(PutIn(without, t, Slot(without[t].components, index), Retagged(sections[s].components[k], region)))
  {
    FoundWhereItIs(sections, id, s, k);
    RegionUnaffected(sections, TakeOut(sections, s, k), region);
  }

  lemma PutBack(sections: seq<Section>, s: nat, k: nat, c: Component)
    requires s < |sections| && k < |sections[s].components|
    ensures var without := TakeOut(sections, s, k);
            Slot(without[s].components, Some(k)) == k && PutIn(without, s, k, c)
              == sections[s := sections[s].(components := sections[s].components[k := c])]
  {
    assert InsertAt(RemoveAt(sections[s].components, k), k, c) == sections[s].components[k := c];
  }

  /** Moving a component there and back to its old place restores the document, up to its section tag. */
  lemma ThereAndBack(sections: seq<Section>, id: string, s: nat, k: nat, region: string, index: Option<int>)
    requires OnlyAt(sections, id, s, k) && Region(sections, sections[s].id) == s
    requires Region(sections, region) < |sections|
    ensures Moved(sections, id, region, index).Ok?
    ensures Moved(Moved(sections, id, region, index).value, id, sections[s].id, Some(k)) ==
              Ok(sections[s := sections[s].(components :=
                        sections[s].components[k := Retagged(sections[s].components[k], sections[s].id)])])
  {
    var c, home := sections[s].components[k], sections[s].id;
    var without, t := TakeOut(sections, s, k), Region(sections, region);
    var p := Slot(without[t].components, index);
    var there := PutIn(without, t, p, Retagged(c, region));
    MovedWhereItIs(sections, id, s, k, region, index);
    Alone(sections, id, s, k);
    OnlyInserted(without, id, t, p, Retagged(c, region));
    RegionUnaffected(sections, there, home);
    MovedWhereItIs(there, id, t, p, home, Some(k));
    RemoveAfterInsert(without[t].components, p, Retagged(c, region));
    assert TakeOut(there, t, p) == without;
    PutBack(sections, s, k, Retagged(c, home));
    RetaggedTwice(c, region, home);
  }

  lemma RetaggedTwice(c: Component, first: string, second: string)
    ensures Retagged(Retagged(c, first), second) == Retagged(c, second)
  {
    if c.props.Some? {
      var p := c.props.value;
      assert p["section" := Text(first)]["section" := Text(second)] == p["section" := Text(second)];
    }
  }

  predicate Nowhere(sections: seq<Section>, id: string) {
    forall i: nat, j: nat :: i < |sections| && j < |sections[i].components| ==> sections[i].components[j].id != id
  }

  lemma Alone(sections: seq<Section>, id: string, s: nat, k: nat)
    requires OnlyAt(sections, id, s, k)
    ensures Nowhere(TakeOut(sections, s, k), id)
  {
    var without := TakeOut(sections, s, k);
    forall i: nat, j: nat | i < |without| && j < |without[i].components| ensures without[i].components[j].id != id {
      if i == s {
        assert without[s].components[j] == sections[s].components[if j < k then j else j + 1];
      }
    }
  }

  lemma OnlyInserted(sections: seq<Section>, id: string, t: nat, p: nat, c: Component)
    requires Nowhere(sections, id) && t < |sections| && p <= |sections[t].components| && c.id == id
    ensures OnlyAt(PutIn(sections, t, p, c), id, t, p)
  {
    var now, cs := PutIn(sections, t, p, c), sections[t].components;
    InsertedAt(cs, p, c);
    assert forall i: nat :: i < |now| && i != t ==> now[i] == sections[i];
  }

  lemma InsertedAt(cs: seq<Component>, p: nat, c: Component)
    requires p <= |cs|
    ensures var now := InsertAt(cs, p, c);
            now[p] == c && forall j: nat :: j < |now| && j != p ==> now[j] == cs[if j < p then j else j - 1]
  {
  }
}
