/** Region paths and component moves in a sectioned document (src/lib/software-document.ts). */
module Regions {
  import opened Common
  import opened SoftwareDocument

  // ------------------------------------------------------------ region paths

  /** The first section with the given id. */
  function FindRegion(sections: seq<Section>, id: string): (r: Option<Section>)
    ensures r.Some? ==> r.value in sections && r.value.id == id
    ensures r.None? <==> forall i: nat :: i < |sections| ==> sections[i].id != id
  {
    if sections == [] then None
    else if sections[0].id == id then Some(sections[0])
    else
      assert forall i: nat :: i < |sections| - 1 ==> sections[1..][i] == sections[i + 1];
      FindRegion(sections[1..], id)
  }

  /** The id of the region `n` parent links above `id`, while there is one. No cycle check here. */
  function Ancestor(sections: seq<Section>, id: string, n: nat): Option<string> {
    if n == 0 then
      if FindRegion(sections, id).Some? then Some(id) else None
    else
      match Ancestor(sections, id, n - 1)
      case None => None
      case Some(below) => ParentOf(sections, below)
  }

  /** The parent region of a region: a non-empty link to a section of the document. */
  function ParentOf(sections: seq<Section>, id: string): Option<string> {
    match FindRegion(sections, id)
    case None => None
    case Some(region) =>
      if region.parentRegionId.None? || region.parentRegionId.value == "" then None
      else if FindRegion(sections, region.parentRegionId.value).None? then None
      else region.parentRegionId
  }

  /** Following the parent links never comes to an end. */
  ghost predicate Endless(sections: seq<Section>, id: string) { forall n: nat :: Ancestor(sections, id, n).Some? }

  /** The region and its first `n - 1` ancestors, outermost first. */
  ghost function Lineage(sections: seq<Section>, id: string, n: nat): seq<string>
    requires n > 0 ==> Ancestor(sections, id, n - 1).Some?
    decreases n
  {
    if n == 0 then [] else [Ancestor(sections, id, n - 1).value] + Lineage(sections, id, n - 1)
  }

  function Reversed(s: seq<string>): seq<string> { if s == [] then [] else Reversed(s[1..]) + [s[0]] }

  function Joined(segments: seq<string>): string {
    if segments == [] then "" else if |segments| == 1 then segments[0] else segments[0] + "/" + Joined(segments[1..])
  }

  /** Of several sections with an id the first is the region. */
  lemma {:induction false} RegionIsFirst(sections: seq<Section>, k: nat)
    requires k < |sections| && forall i: nat :: i < k ==> sections[i].id != sections[k].id
    ensures FindRegion(sections, sections[k].id) == Some(sections[k])
    decreases k
  {
    if k > 0 {
      assert forall i: nat :: i < k - 1 ==> sections[1..][i] == sections[i + 1];
      RegionIsFirst(sections[1..], k - 1);
    }
  }

  /** Segments are joined by slashes: each one but the last is followed by one. */
  lemma {:induction false} JoinedBySlashes(segments: seq<string>, last: string)
    ensures Joined([last]) == last
    ensures segments != [] ==> Joined(segments + [last]) == Joined(segments) + "/" + last
    decreases |segments|
  {
    if |segments| > 1 {
      JoinedBySlashes(segments[1..], last);
      assert (segments + [last])[1..] == segments[1..] + [last];
      assert segments[0] + "/" + (Joined(segments[1..]) + "/" + last) == segments[0] + "/" + Joined(segments[1..]) + "/" + last;
    } else if |segments| == 1 {
      assert (segments + [last])[1..] == [last];
    }
  }

  predicate Distinct(s: seq<string>) { forall i, j :: 0 <= i < j < |s| ==> s[i] != s[j] }

  /** `segments` lists the region and its ancestors from the inside out. */
  predicate Climbs(sections: seq<Section>, id: string, segments: seq<string>) {
    && segments != [] && Distinct(segments)
    && forall i: nat :: i < |segments| ==> Ancestor(sections, id, i) == Some(segments[i])
  }

  lemma {:induction false} ReversedAppend(s: seq<string>, x: string)
    ensures Reversed(s + [x]) == [x] + Reversed(s)
    decreases |s|
  {
    if s != [] {
      assert (s + [x])[1..] == s[1..] + [x];
      ReversedAppend(s[1..], x);
    }
  }

  lemma {:induction false} ReversedMembers(s: seq<string>)
    ensures |Reversed(s)| == |s|
    ensures forall i: nat :: i < |s| ==> Reversed(s)[i] == s[|s| - 1 - i]
    decreases |s|
  {
    if s != [] { ReversedMembers(s[1..]); }
  }

  /** Walking outwards and reversing at the end gives the lineage. */
  lemma {:induction false} ReversedClimb(sections: seq<Section>, id: string, segments: seq<string>)
    requires forall i: nat :: i < |segments| ==> Ancestor(sections, id, i) == Some(segments[i])
    ensures Lineage(sections, id, |segments|) == Reversed(segments)
    decreases |segments|
  {
    if segments != [] {
      var init, last := segments[..|segments| - 1], segments[|segments| - 1];
      ReversedClimb(sections, id, init);
      ReversedAppend(init, last);
      assert segments == init + [last];
    }
  }

  /** A chain whose last parent link points back into it is followed for ever. */
  lemma {:induction false} RevisitIsEndless(sections: seq<Section>, id: string, segments: seq<string>, n: nat)
    requires Climbs(sections, id, segments)
    requires ParentOf(sections, segments[|segments| - 1]).Some?
    requires ParentOf(sections, segments[|segments| - 1]).value in segments
    ensures Ancestor(sections, id, n).Some? && Ancestor(sections, id, n).value in segments
    decreases n
  {
    if n > 0 {
      RevisitIsEndless(sections, id, segments, n - 1);
      var i: nat :| i < |segments| && segments[i] == Ancestor(sections, id, n - 1).value;
      if i < |segments| - 1 { assert Ancestor(sections, id, i + 1) == Some(segments[i + 1]); }
    }
  }

  lemma {:induction false} AncestorExists(sections: seq<Section>, id: string, n: nat)
    requires Ancestor(sections, id, n).Some?
    ensures FindRegion(sections, Ancestor(sections, id, n).value).Some?
    decreases n
  {
    if n > 0 && Ancestor(sections, id, n - 1).Some? { AncestorExists(sections, id, n - 1); }
  }

  /** The walk stands at the last of `segments`, which is the region `curr`. */
  predicate At(sections: seq<Section>, id: string, segments: seq<string>, curr: Section) {
    Climbs(sections, id, segments) && FindRegion(sections, segments[|segments| - 1]) == Some(curr)
  }

  lemma Revisited(sections: seq<Section>, id: string, segments: seq<string>, curr: Section)
    requires At(sections, id, segments, curr)
    requires curr.parentRegionId.Some? && curr.parentRegionId.value != "" && curr.parentRegionId.value in segments
    ensures Endless(sections, id)
  {
    var k: nat :| k < |segments| && segments[k] == curr.parentRegionId.value;
    assert Ancestor(sections, id, k) == Some(segments[k]);
    AncestorExists(sections, id, k);
    forall n: nat ensures Ancestor(sections, id, n).Some? { RevisitIsEndless(sections, id, segments, n); }
  }

  lemma Climbed(sections: seq<Section>, id: string, segments: seq<string>, curr: Section, parent: Section)
    requires At(sections, id, segments, curr)
    requires curr.parentRegionId.Some? && curr.parentRegionId.value != "" && curr.parentRegionId.value !in segments
    requires FindRegion(sections, curr.parentRegionId.value) == Some(parent)
    ensures At(sections, id, segments + [parent.id], parent)
  {
    assert Ancestor(sections, id, |segments| - 1) == Some(segments[|segments| - 1]);
    assert Ancestor(sections, id, |segments|) == Some(parent.id);
    LongerClimb(sections, id, segments, parent.id);
  }

  lemma LongerClimb(sections: seq<Section>, id: string, segments: seq<string>, next: string)
    requires Climbs(sections, id, segments) && next !in segments && Ancestor(sections, id, |segments|) == Some(next)
    ensures Climbs(sections, id, segments + [next])
  {
    var more := segments + [next];
    forall i: nat | i < |more| ensures Ancestor(sections, id, i) == Some(more[i]) {
      if i < |segments| { assert more[i] == segments[i]; }
    }
  }

  /** What a returned path says about a region with `n - 1` ancestors. */
  ghost predicate IsPath(doc: Document, id: string, n: nat, path: string) {
    && n > 0 && Ancestor(doc.sections, id, n - 1).Some? && Ancestor(doc.sections, id, n).None?
    && Distinct(Lineage(doc.sections, id, n))
    && path == Joined([doc.id] + Lineage(doc.sections, id, n))
  }

  lemma Arrived(doc: Document, id: string, segments: seq<string>, curr: Section)
    requires At(doc.sections, id, segments, curr) && ParentOf(doc.sections, curr.id).None?
    ensures IsPath(doc, id, |segments|, Joined(Reversed(segments + [doc.id]))) && !Endless(doc.sections, id)
  {
    var n := |segments|;
    assert Ancestor(doc.sections, id, n - 1) == Some(segments[n - 1]);
    assert Ancestor(doc.sections, id, n).None?;
    ReversedClimb(doc.sections, id, segments);
    ReversedMembers(segments);
    ReversedAppend(segments, doc.id);
  }

  function Ids(sections: seq<Section>): set<string> { set s | s in sections :: s.id }

  /** The path of a region exists exactly when the region does and its parent links come to an end.
      It lists the document, then the region's ancestors and the region, each one once. The loop ends
      on every document, also when parent links form a cycle: the ids not yet visited run out. */
  method GetRegionPath(doc: Document, regionId: string) returns (path: Option<string>)
    ensures path.None? <==> FindRegion(doc.sections, regionId).None? || Endless(doc.sections, regionId)
    ensures path.Some? ==> exists n: nat :: IsPath(doc, regionId, n, path.value)
  {
    var found := FindRegion(doc.sections, regionId);
    if found.None? { return None; }
    var curr := found.value;
    var segments, visited := [curr.id], {curr.id};
    assert Ancestor(doc.sections, regionId, 0) == Some(curr.id);
    while curr.parentRegionId.Some? && curr.parentRegionId.value != ""
      invariant At(doc.sections, regionId, segments, curr)
      invariant forall s :: s in visited <==> s in segments
      decreases Ids(doc.sections) - visited
    {
      var parentId := curr.parentRegionId.value;
      if parentId in visited {
        Revisited(doc.sections, regionId, segments, curr);
        return None;
      }
      visited := visited + {parentId};
      var parent := FindRegion(doc.sections, parentId);
      if parent.None? { break; }
      assert parentId in Ids(doc.sections);
      Climbed(doc.sections, regionId, segments, curr, parent.value);
      segments := segments + [parent.value.id];
      curr := parent.value;
    }
    Arrived(doc, regionId, segments, curr);
    segments := Reversed(segments + [doc.id]);
    path := Some(Joined(segments));
  }
}
