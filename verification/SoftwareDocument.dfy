/** Conversion between flat tools and sectioned documents, region paths and component moves
    (src/lib/software-document.ts). */
module SoftwareDocument {
  import opened Common
  import opened StableGrouping

  /** A property value: a string, or anything else with its truth value. */
  datatype PropValue = Text(text: string) | Other(value: Value, truthy: bool)

  type Props = map<string, PropValue>

  /** A top-level component; `rest` stands for its type, children, actions and layout fields. */
  datatype Component = Component(id: string, props: Option<Props>, rest: Value)

  datatype Section = Section(
    id: string, title: Option<string>, role: Option<string>, layout: Option<string>,
    parentRegionId: Option<string>, slot: Option<string>, components: seq<Component>)

  /** The default layout, an object, or a value of another type where an object is expected. */
  datatype Layout = SingleColumn | Given(value: Value) | Odd(value: Value)

  datatype Tool = Tool(
    id: string, name: string, description: string, layout: Option<Layout>, components: seq<Component>, version: Option<nat>)

  datatype Document = Document(
    id: string, title: string, description: Option<string>, version: nat, layout: Option<Layout>, sections: seq<Section>,
    designTokens: Option<map<string, Layout>>)

  predicate Truthy(v: PropValue) { if v.Text? then v.text != "" else v.truthy }

  predicate Has(props: Props, key: string) { key in props && Truthy(props[key]) }

  function PropsOf(c: Component): Props { if c.props.Some? then c.props.value else map[] }

  /** The section a flat component belongs to. */
  function SectionOf(c: Component): string {
    var p := PropsOf(c);
    if "section" in p && p["section"].Text? && Trim(p["section"].text) != "" then Trim(p["section"].text) else "main"
  }

  function NewSection(s: string, components: seq<Component>): Section {
    Section(s, if s == "main" then None else Some(s), Some("content"), Some("stack"), None, None, components)
  }

  function SectionFor(cs: seq<Component>, s: string): Section { NewSection(s, Group(SectionOf, cs, s)) }

  function SectionsFor(cs: seq<Component>, order: seq<string>): seq<Section> {
    if order == [] then [] else [SectionFor(cs, order[0])] + SectionsFor(cs, order[1..])
  }

  function FromTool(tool: Tool): Document {
    Document(tool.id, tool.name, if tool.description != "" then Some(tool.description) else None,
             if tool.version.Some? then tool.version.value else 1, tool.layout,
             SectionsFor(tool.components, Order(SectionOf, tool.components)), None)
  }

  function WithDefault(props: Props, key: string, value: Option<string>): Props {
    if value.Some? && value.value != "" && !Has(props, key) then props[key := Text(value.value)] else props
  }

  /** A component as a section presents it. */
  function Presented(s: Section, c: Component): Component {
    var p := PropsOf(c);
    var p := if Has(p, "section") then p else p["section" := Text(s.id)];
    var p := WithDefault(p, "sectionRole", s.role);
    var p := WithDefault(p, "sectionLayout", s.layout);
    var p := WithDefault(p, "parentRegionId", s.parentRegionId);
    c.(props := Some(WithDefault(p, "slot", s.slot)))
  }

  function PresentedAll(s: Section, cs: seq<Component>): seq<Component> {
    if cs == [] then [] else PresentedAll(s, cs[..|cs| - 1]) + [Presented(s, cs[|cs| - 1])]
  }

  function Flattened(sections: seq<Section>): seq<Component> {
    if sections == [] then []
    else Flattened(sections[..|sections| - 1])
         + PresentedAll(sections[|sections| - 1], sections[|sections| - 1].components)
  }

  /** The document's own layout if it is an object, else what the design tokens hold under that name. */
  function LayoutOf(doc: Document): Layout {
    if doc.layout.Some? && !doc.layout.value.Odd? then doc.layout.value
    else if doc.designTokens.Some? && "layout" in doc.designTokens.value then doc.designTokens.value["layout"]
    else SingleColumn
  }

  function ToTool(doc: Document): Tool {
    Tool(doc.id, doc.title, if doc.description.Some? then doc.description.value else "",
         Some(LayoutOf(doc)), Flattened(doc.sections), Some(doc.version))
  }

  lemma {:induction false} SectionsExtend(cs: seq<Component>, order: seq<string>, k: nat)
    requires k < |order|
    ensures SectionsFor(cs, order[..k + 1]) == SectionsFor(cs, order[..k]) + [SectionFor(cs, order[k])]
    decreases |order|
  {
    if k > 0 {
      assert order[..k + 1][1..] == order[1..][..k] && order[..k][1..] == order[1..][..k - 1];
      SectionsExtend(cs, order[1..], k - 1);
    }
  }

  method BuildSections(cs: seq<Component>, sectionOrder: seq<string>, sectionMap: map<string, seq<Component>>)
    returns (sections: seq<Section>)
    requires Holds(sectionMap, SectionOf, cs) && forall s :: s in sectionOrder ==> s in sectionMap
    ensures sections == SectionsFor(cs, sectionOrder)
  {
    sections := [];
    var k := 0;
    while k < |sectionOrder|
      invariant k == |sections| <= |sectionOrder|
      invariant sections == SectionsFor(cs, sectionOrder[..k])
    {
      var secId := sectionOrder[k];
      SectionsExtend(cs, sectionOrder, k);
      sections := sections + [NewSection(secId, sectionMap[secId])];
      k := k + 1;
    }
    assert sectionOrder[..k] == sectionOrder;
  }

  method FromToolDefinition(tool: Tool) returns (doc: Document)
    ensures doc == FromTool(tool)
  {
    var sectionOrder, sectionMap := GroupBy(SectionOf, tool.components);
    var sections := BuildSections(tool.components, sectionOrder, sectionMap);
    doc := Document(tool.id, tool.name, if tool.description != "" then Some(tool.description) else None,
                    if tool.version.Some? then tool.version.value else 1, tool.layout, sections, None);
  }

  method ToToolDefinition(doc: Document) returns (tool: Tool)
    ensures tool == ToTool(doc)
  {
    var all: seq<Component> := [];
    var i := 0;
    while i < |doc.sections|
      invariant i <= |doc.sections| && all == Flattened(doc.sections[..i])
    {
      var section := doc.sections[i];
      assert doc.sections[..i + 1][..i] == doc.sections[..i];
      ghost var before := all;
      var j := 0;
      while j < |section.components|
        invariant j <= |section.components| && all == before + PresentedAll(section, section.components[..j])
      {
        var c := section.components[j];
        assert section.components[..j + 1][..j] == section.components[..j];
        var props := PropsOf(c);
        if !Has(props, "section") {
          props := props["section" := Text(section.id)];
        }
        props := WithDefault(props, "sectionRole", section.role);
        props := WithDefault(props, "sectionLayout", section.layout);
        props := WithDefault(props, "parentRegionId", section.parentRegionId);
        props := WithDefault(props, "slot", section.slot);
        all := all + [c.(props := Some(props))];
        j := j + 1;
      }
      assert section.components[..j] == section.components;
      i := i + 1;
    }
    assert doc.sections[..i] == doc.sections;
    var layout := SingleColumn;
    if doc.layout.Some? && !doc.layout.value.Odd? {
      layout := doc.layout.value;
    } else if doc.designTokens.Some? && "layout" in doc.designTokens.value {
      layout := doc.designTokens.value["layout"];
    }
    tool := Tool(doc.id, doc.title, if doc.description.Some? then doc.description.value else "",
                 Some(layout), all, Some(doc.version));
  }

  // What the round trip does

  /** A component as the section made for it presents it. */
  function Tagged(c: Component): Component { Presented(SectionFor([], SectionOf(c)), c) }

  function TaggedAll(cs: seq<Component>): seq<Component> {
    if cs == [] then [] else TaggedAll(cs[..|cs| - 1]) + [Tagged(cs[|cs| - 1])]
  }

  function RoundTrip(tool: Tool): Tool { ToTool(FromTool(tool)) }

  lemma {:induction false} TaggedConcat(a: seq<Component>, b: seq<Component>)
    ensures TaggedAll(a + b) == TaggedAll(a) + TaggedAll(b)
    decreases |b|
  {
    if b == [] {
      assert a + b == a;
    } else {
      assert (a + b)[..|a + b| - 1] == a + b[..|b| - 1];
      TaggedConcat(a, b[..|b| - 1]);
    }
  }

  lemma PresentationIgnoresSiblings(s: string, a: seq<Component>, b: seq<Component>, c: Component)
    ensures Presented(SectionFor(a, s), c) == Presented(SectionFor(b, s), c)
  {
  }

  lemma {:induction false} PresentedIsTagged(own: string, cs: seq<Component>, all: seq<Component>)
    requires AllOf(SectionOf, cs, own)
    ensures PresentedAll(SectionFor(all, own), cs) == TaggedAll(cs)
    decreases |cs|
  {
    if cs != [] {
      var init, last := cs[..|cs| - 1], cs[|cs| - 1];
      assert last in cs && AllOf(SectionOf, init, own);
      PresentedIsTagged(own, init, all);
      PresentationIgnoresSiblings(own, all, [], last);
    }
  }

  lemma {:induction false} FlattenedConcat(a: seq<Section>, b: seq<Section>)
    ensures Flattened(a + b) == Flattened(a) + Flattened(b)
    decreases |b|
  {
    if b == [] {
      assert a + b == a;
    } else {
      assert (a + b)[..|a + b| - 1] == a + b[..|b| - 1];
      FlattenedConcat(a, b[..|b| - 1]);
    }
  }

  lemma {:induction false} FlattenedSections(cs: seq<Component>, order: seq<string>)
    ensures Flattened(SectionsFor(cs, order)) == TaggedAll(Gather(SectionOf, cs, order))
    decreases |order|
  {
    if order != [] {
      var s, first := SectionFor(cs, order[0]), Group(SectionOf, cs, order[0]);
      FlattenedConcat([s], SectionsFor(cs, order[1..]));
      assert Flattened([s]) == PresentedAll(s, first) by { assert [s][..0] == []; }
      GroupMembers(SectionOf, cs, order[0]);
      PresentedIsTagged(order[0], first, cs);
      FlattenedSections(cs, order[1..]);
      TaggedConcat(first, Gather(SectionOf, cs, order[1..]));
    }
  }

  /** What a section offers for a property of its components. */
  function Offered(s: Section, key: string): Option<string> {
    var value :=
      if key == "section" then Some(s.id)
      else if key == "sectionRole" then s.role
      else if key == "sectionLayout" then s.layout
      else if key == "parentRegionId" then s.parentRegionId
      else if key == "slot" then s.slot else None;
    if key != "section" && value == Some("") then None else value
  }

  lemma DefaultAt(props: Props, key: string, value: Option<string>, k: string)
    ensures var p := WithDefault(props, key, value);
            if k == key && value.Some? && value.value != "" && !Has(props, k) then k in p && p[k] == Text(value.value)
            else (k in p <==> k in props) && (k in props ==> p[k] == props[k])
  {
  }

  /** Property by property: a truthy one stays, a missing or falsy one takes what the section offers. */
  lemma PresentationFillsIn(s: Section, c: Component, k: string)
    ensures var p, q := PropsOf(c), PropsOf(Presented(s, c));
            if Offered(s, k).Some? && !Has(p, k) then k in q && q[k] == Text(Offered(s, k).value)
            else (k in q <==> k in p) && (k in p ==> q[k] == p[k])
  {
    var p0 := PropsOf(c);
    var p1 := if Has(p0, "section") then p0 else p0["section" := Text(s.id)];
    var p2 := WithDefault(p1, "sectionRole", s.role);
    var p3 := WithDefault(p2, "sectionLayout", s.layout);
    var p4 := WithDefault(p3, "parentRegionId", s.parentRegionId);
    DistinctNames();
    DefaultAt(p1, "sectionRole", s.role, k);
    DefaultAt(p2, "sectionLayout", s.layout, k);
    DefaultAt(p3, "parentRegionId", s.parentRegionId, k);
    DefaultAt(p4, "slot", s.slot, k);
  }

  lemma DistinctNames()
    ensures "section" != "sectionRole" && "section" != "sectionLayout" && "sectionRole" != "sectionLayout"
    ensures "parentRegionId" !in {"section", "sectionRole", "sectionLayout", "slot"}
    ensures "slot" !in {"section", "sectionRole", "sectionLayout"}
  {
    assert |"section"| == 7 && |"sectionRole"| == 11 && |"sectionLayout"| == 13 && |"parentRegionId"| == 14 && |"slot"| == 4;
  }

  /** Tagging only fills in section properties that are missing or falsy, and is then a no-op. */
  lemma TaggingIsConservative(c: Component)
    ensures SectionOf(Tagged(c)) == SectionOf(c) && Tagged(Tagged(c)) == Tagged(c)
    ensures Tagged(c).id == c.id && Tagged(c).rest == c.rest
    ensures forall k :: k in PropsOf(c) && (Has(PropsOf(c), k) || k !in {"section", "sectionRole", "sectionLayout"}) ==>
              k in PropsOf(Tagged(c)) && PropsOf(Tagged(c))[k] == PropsOf(c)[k]
    ensures forall k :: k in PropsOf(Tagged(c)) && k !in PropsOf(c) ==> k in {"section", "sectionRole", "sectionLayout"}
  {
    TrimShape("main");
    assert Tight("main");
  }

  lemma {:induction false} TaggingKeepsGroups(cs: seq<Component>, s: string)
    ensures Group(SectionOf, TaggedAll(cs), s) == TaggedAll(Group(SectionOf, cs, s)) && Order(SectionOf, TaggedAll(cs)) == Order(SectionOf, cs)
    decreases |cs|
  {
    if cs != [] {
      var init, last := cs[..|cs| - 1], cs[|cs| - 1];
      TaggingIsConservative(last);
      assert TaggedAll(cs)[..|TaggedAll(cs)| - 1] == TaggedAll(init);
      TaggingKeepsGroups(init, s);
      if SectionOf(last) == s {
        assert (Group(SectionOf, init, s) + [last])[..|Group(SectionOf, init, s)|] == Group(SectionOf, init, s);
      } else {
        assert Group(SectionOf, cs, s) == Group(SectionOf, init, s);
      }
    }
  }

  lemma {:induction false} TaggingKeepsGather(cs: seq<Component>, order: seq<string>)
    ensures Gather(SectionOf, TaggedAll(cs), order) == TaggedAll(Gather(SectionOf, cs, order))
    decreases |order|
  {
    if order != [] {
      TaggingKeepsGroups(cs, order[0]);
      TaggingKeepsGather(cs, order[1..]);
      TaggedConcat(Group(SectionOf, cs, order[0]), Gather(SectionOf, cs, order[1..]));
    }
  }

  lemma {:induction false} TaggingTwice(cs: seq<Component>)
    ensures TaggedAll(TaggedAll(cs)) == TaggedAll(cs)
    decreases |cs|
  {
    if cs != [] {
      TaggingIsConservative(cs[|cs| - 1]);
      assert TaggedAll(cs)[..|TaggedAll(cs)| - 1] == TaggedAll(cs[..|cs| - 1]);
      TaggingTwice(cs[..|cs| - 1]);
    }
  }

  /** The components after a round trip: the stable grouping of the input, each one tagged. */
  lemma RoundTripGroups(tool: Tool)
    ensures RoundTrip(tool).components == TaggedAll(Grouped(SectionOf, tool.components))
  {
    FlattenedSections(tool.components, Order(SectionOf, tool.components));
  }

  /** The round trip is idempotent. */
  lemma RoundTripTwice(tool: Tool)
    ensures RoundTrip(RoundTrip(tool)) == RoundTrip(tool)
  {
    var g := Grouped(SectionOf, tool.components);
    RoundTripGroups(tool);
    RoundTripGroups(RoundTrip(tool));
    TaggingKeepsGroups(g, "");
    TaggingKeepsGather(g, Order(SectionOf, g));
    GroupingTwice(SectionOf, tool.components);
    TaggingTwice(g);
  }

  // ------------------------------------------------------------ what a conversion carries over

  /** A section prop counts as given only if it is neither missing nor falsy: an empty text is falsy. */
  lemma EmptyIsNotGiven(props: Props, key: string)
    ensures key !in props ==> !Has(props, key)
    ensures key in props && props[key].Text? ==> (Has(props, key) <==> |props[key].text| > 0)
    ensures key in props && props[key].Other? ==> (Has(props, key) <==> props[key].truthy)
  {
  }

  /** A component belongs to the section its text names, without the white space around the name. */
  lemma SectionIsNamed(c: Component, a: string, name: string, b: string)
    requires c.props.Some? && "section" in c.props.value && c.props.value["section"] == Text(a + name + b)
    requires Blank(a) && Blank(b) && name != "" && Tight(name)
    ensures SectionOf(c) == name
  {
    TrimCuts(a, name, b);
  }

  /** Without such a name it belongs to "main". */
  lemma SectionIsMain(c: Component)
    requires c.props.Some? && "section" in c.props.value ==>
               c.props.value["section"].Other? || Blank(c.props.value["section"].text)
    ensures SectionOf(c) == "main"
  {
    if c.props.Some? && "section" in c.props.value && c.props.value["section"].Text? {
      TrimOfBlank(c.props.value["section"].text);
    }
  }

  /** A new section is titled by its id, but for "main", and is a content stack of its own. */
  predicate IsNewSection(s: Section) {
    && s.title == (if s.id == "main" then None else Some(s.id)) && s.role == Some("content") && s.layout == Some("stack")
    && s.parentRegionId == None && s.slot == None
  }

  lemma {:induction false} SectionsAreNew(cs: seq<Component>, order: seq<string>)
    ensures |SectionsFor(cs, order)| == |order|
    ensures forall i: nat :: i < |order| ==> SectionsFor(cs, order)[i].id == order[i] && IsNewSection(SectionsFor(cs, order)[i])
    decreases |order|
  {
    if order != [] { SectionsAreNew(cs, order[1..]); }
  }

  lemma DocumentCarries(tool: Tool)
    ensures var doc := FromTool(tool);
      && doc.id == tool.id && doc.title == tool.name && doc.layout == tool.layout && doc.designTokens == None
      && (if tool.description == "" then doc.description == None else doc.description == Some(tool.description))
      && (if tool.version == None then doc.version == 1 else tool.version == Some(doc.version))
      && forall s :: s in doc.sections ==> IsNewSection(s)
  {
    SectionsAreNew(tool.components, Order(SectionOf, tool.components));
  }

  /** The layout is the document's if that is an object, else the one of the design tokens, whatever it is,
      else a single column. */
  predicate IsLayout(doc: Document, layout: Layout) {
    match doc.layout
    case Some(SingleColumn) => layout == SingleColumn
    case Some(Given(v)) => layout == Given(v)
    case _ =>
      if doc.designTokens.Some? && "layout" in doc.designTokens.value then layout == doc.designTokens.value["layout"]
      else layout == SingleColumn
  }

  lemma ToolCarries(doc: Document, layout: Layout)
    ensures var tool := ToTool(doc);
      && tool.id == doc.id && tool.name == doc.title && tool.version == Some(doc.version)
      && (doc.description == None ==> tool.description == "")
      && (doc.description.Some? ==> tool.description == doc.description.value)
      && (tool.layout == Some(layout) <==> IsLayout(doc, layout))
  {
  }
}
