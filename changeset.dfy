/** The record projector: one closed `changeset` element becomes one flat record
    of fourteen string-or-missing values, nine copied from the element's attributes
    and five taken from its immediate `tag` children (k/v pairs). */
module Changeset {
  import opened Xml

  /** A column value: a string, or None where the source stores Python's None. */
  type Value = Option<string>

  datatype Record = Record(
    id: Value, createdAt: Value, uid: Value, user: Value, numChanges: Value,
    minLat: Value, minLon: Value, maxLat: Value, maxLon: Value,
    createdBy: Value, imageryUsed: Value, host: Value, changesetsCount: Value, hashtags: Value)

  /** The record's keys in the order the record literal declares them; this is
      also the column order of every table built from records. */
  const COLUMNS: seq<string> := [
    "id", "created_at", "uid", "user", "num_changes",
    "min_lat", "min_lon", "max_lat", "max_lon",
    "created_by", "imagery_used", "host", "changesets_count", "hashtags"]

  /** The first ATTRIBUTE_COUNT columns come from attributes, the rest from `tag` children. */
  const ATTRIBUTE_COUNT: nat := 9

  /** The record as a row, in COLUMNS order. */
  function Row(r: Record): (row: seq<Value>)
    ensures |row| == |COLUMNS| == 14
  {
    [r.id, r.createdAt, r.uid, r.user, r.numChanges,
     r.minLat, r.minLon, r.maxLat, r.maxLon,
     r.createdBy, r.imageryUsed, r.host, r.changesetsCount, r.hashtags]
  }

  /** The record before any `tag` child is looked at: attributes verbatim, optional
      fields the empty string. */
  function Defaults(e: Element): (r: Record)
    ensures forall i :: 0 <= i < ATTRIBUTE_COUNT ==> Row(r)[i] == Get(e, COLUMNS[i])
    ensures forall i :: ATTRIBUTE_COUNT <= i < |COLUMNS| ==> Row(r)[i] == Some("")
  {
    Record(
      Get(e, "id"), Get(e, "created_at"), Get(e, "uid"), Get(e, "user"), Get(e, "num_changes"),
      Get(e, "min_lat"), Get(e, "min_lon"), Get(e, "max_lat"), Get(e, "max_lon"),
      Some(""), Some(""), Some(""), Some(""), Some(""))
  }

  /** One pass of the if/elif chain over a `tag` child: its `k` attribute picks an
      optional column, which receives its `v` attribute; any other key changes nothing. */
  function Apply(r: Record, t: Element): (r': Record)
    ensures forall i :: 0 <= i < |COLUMNS| ==>
      Row(r')[i] == if ATTRIBUTE_COUNT <= i && Get(t, "k") == Some(COLUMNS[i]) then Get(t, "v") else Row(r)[i]
  {
    var k := Get(t, "k");
    if k == Some("created_by") then r.(createdBy := Get(t, "v"))
    else if k == Some("imagery_used") then r.(imageryUsed := Get(t, "v"))
    else if k == Some("host") then r.(host := Get(t, "v"))
    else if k == Some("changesets_count") then r.(changesetsCount := Get(t, "v"))
    else if k == Some("hashtags") then r.(hashtags := Get(t, "v"))
    else r
  }

  /** The `tag` children applied in document order. */
  function ApplyAll(r: Record, tags: seq<Element>): (r': Record)
    ensures Row(r')[..ATTRIBUTE_COUNT] == Row(r)[..ATTRIBUTE_COUNT]
    decreases |tags|
  {
    if tags == [] then r else Apply(ApplyAll(r, tags[..|tags| - 1]), tags[|tags| - 1])
  }

  /** `element.findall('tag')`: the immediate `tag` children of a changeset element. */
  function TagChildren(e: Element): (tags: seq<Element>)
    ensures |tags| <= |e.children|
    ensures forall j :: 0 <= j < |tags| ==> tags[j].tag == "tag"
  {
    FindAll(e.children, "tag")
  }

  /** The record the source builds for a `changeset` element. */
  function Project(e: Element): (r: Record)
    ensures Row(r)[..ATTRIBUTE_COUNT] == Row(Defaults(e))[..ATTRIBUTE_COUNT]
  {
    ApplyAll(Defaults(e), TagChildren(e))
  }

  /** The nine attribute columns hold the element's attributes verbatim, and None
      for an attribute the element lacks, whatever its children are. */
  lemma ProjectAttributes(e: Element)
    ensures forall i :: 0 <= i < ATTRIBUTE_COUNT ==> Row(Project(e))[i] == Get(e, COLUMNS[i])
  {
    var d := Defaults(e);
    var r := ApplyAll(d, TagChildren(e));
    assert Row(r)[..ATTRIBUTE_COUNT] == Row(d)[..ATTRIBUTE_COUNT];
    forall i | 0 <= i < ATTRIBUTE_COUNT
      ensures Row(r)[i] == Get(e, COLUMNS[i])
    {
      assert Row(r)[i] == Row(r)[..ATTRIBUTE_COUNT][i];
    }
  }

  /** The projection as the source runs it: the record literal, then a loop over
      the `tag` children that overwrites one field per recognised key. */
  method ProjectChangeset(e: Element) returns (r: Record)
    ensures r == Project(e)
  {
    r := Defaults(e);
    var tags := TagChildren(e);
    for j := 0 to |tags|
      invariant r == ApplyAll(Defaults(e), tags[..j])
    {
      var t := tags[j];
      assert tags[..j + 1][..j] == tags[..j];
      assert ApplyAll(Defaults(e), tags[..j + 1]) == Apply(r, t);
      var k := Get(t, "k");
      if k == Some("created_by") {
        r := r.(createdBy := Get(t, "v"));
      } else if k == Some("imagery_used") {
        r := r.(imageryUsed := Get(t, "v"));
      } else if k == Some("host") {
        r := r.(host := Get(t, "v"));
      } else if k == Some("changesets_count") {
        r := r.(changesetsCount := Get(t, "v"));
      } else if k == Some("hashtags") {
        r := r.(hashtags := Get(t, "v"));
      }
    }
    assert tags[..|tags|] == tags;
  }

  /** The `tag` child `t` names optional column `i` through its `k` attribute. */
  predicate Names(t: Element, i: nat)
    requires i < |COLUMNS|
  {
    Get(t, "k") == Some(COLUMNS[i])
  }

  /** Position `j` holds the last child in `tags` that names column `i`. */
  predicate LastNaming(tags: seq<Element>, j: int, i: nat)
    requires i < |COLUMNS|
  {
    0 <= j < |tags| && Names(tags[j], i) && forall j' :: j < j' < |tags| ==> !Names(tags[j'], i)
  }

  /** An optional column keeps its starting value when no `tag` child names it. */
  lemma {:induction false} ApplyAllUnnamed(start: Record, tags: seq<Element>, i: nat)
    requires ATTRIBUTE_COUNT <= i < |COLUMNS|
    requires forall j :: 0 <= j < |tags| ==> !Names(tags[j], i)
    ensures Row(ApplyAll(start, tags))[i] == Row(start)[i]
    decreases |tags|
  {
    if tags != [] {
      var prefix, last := tags[..|tags| - 1], tags[|tags| - 1];
      assert forall j :: 0 <= j < |prefix| ==> prefix[j] == tags[j];
      ApplyAllUnnamed(start, prefix, i);
      assert !Names(last, i);
      assert ApplyAll(start, tags) == Apply(ApplyAll(start, prefix), last);
    }
  }

  /** An optional column named by some `tag` child holds the `v` of the LAST child
      that names it, in document order. */
  lemma {:induction false} ApplyAllLastWins(start: Record, tags: seq<Element>, i: nat, j: int)
    requires ATTRIBUTE_COUNT <= i < |COLUMNS|
    requires LastNaming(tags, j, i)
    ensures Row(ApplyAll(start, tags))[i] == Get(tags[j], "v")
    decreases |tags|
  {
    var prefix, last := tags[..|tags| - 1], tags[|tags| - 1];
    var mid := ApplyAll(start, prefix);
    assert ApplyAll(start, tags) == Apply(mid, last);
    if j < |tags| - 1 {
      assert !Names(last, i);
      assert LastNaming(prefix, j, i);
      ApplyAllLastWins(start, prefix, i, j);
    }
  }

  /** For a changeset element: every optional column is "" unless an immediate `tag`
      child carries its key, and then it is the `v` of the last such child. */
  lemma ProjectOptionalColumn(e: Element, i: nat)
    requires ATTRIBUTE_COUNT <= i < |COLUMNS|
    ensures (forall j :: 0 <= j < |TagChildren(e)| ==> !Names(TagChildren(e)[j], i)) ==>
      Row(Project(e))[i] == Some("")
    ensures forall j :: LastNaming(TagChildren(e), j, i) ==>
      Row(Project(e))[i] == Get(TagChildren(e)[j], "v")
  {
    var d, tags := Defaults(e), TagChildren(e);
    assert Row(d)[i] == Some("");
    if forall j :: 0 <= j < |tags| ==> !Names(tags[j], i) {
      ApplyAllUnnamed(d, tags, i);
    }
    forall j | LastNaming(tags, j, i)
      ensures Row(Project(e))[i] == Get(tags[j], "v")
    {
      ApplyAllLastWins(d, tags, i, j);
    }
  }

  lemma {:induction false} ApplyAllAppend(r: Record, a: seq<Element>, b: seq<Element>)
    ensures ApplyAll(r, a + b) == ApplyAll(ApplyAll(r, a), b)
    decreases |b|
  {
    if b == [] {
      assert a + b == a;
    } else {
      assert (a + b)[..|a + b| - 1] == a + b[..|b| - 1];
      ApplyAllAppend(r, a, b[..|b| - 1]);
    }
  }

  /** A `tag` child whose key is none of the five optional columns changes nothing. */
  lemma ApplyUnrecognised(r: Record, t: Element)
    requires forall i :: ATTRIBUTE_COUNT <= i < |COLUMNS| ==> !Names(t, i)
    ensures Apply(r, t) == r
  {
    assert !Names(t, 9) && !Names(t, 10) && !Names(t, 11) && !Names(t, 12) && !Names(t, 13);
  }

  /** A child that is not a `tag` element, or a `tag` child whose key is none of the
      five optional columns, can be removed without changing the record. */
  lemma UnrecognisedChildIgnored(e: Element, before: seq<Element>, t: Element, after: seq<Element>)
    requires e.children == before + [t] + after
    requires t.tag != "tag" || forall i :: ATTRIBUTE_COUNT <= i < |COLUMNS| ==> !Names(t, i)
    ensures Project(e) == Project(e.(children := before + after))
  {
    var d := Defaults(e);
    assert Defaults(e.(children := before + after)) == d;
    var fb, ft, fa := FindAll(before, "tag"), FindAll([t], "tag"), FindAll(after, "tag");
    FindAllAppend(before + [t], after, "tag");
    FindAllAppend(before, [t], "tag");
    FindAllAppend(before, after, "tag");
    assert Project(e) == ApplyAll(d, fb + ft + fa);
    assert Project(e.(children := before + after)) == ApplyAll(d, fb + fa);
    ApplyAllAppend(d, fb + ft, fa);
    ApplyAllAppend(d, fb, ft);
    ApplyAllAppend(d, fb, fa);
    var mid := ApplyAll(d, fb);
    if t.tag == "tag" {
      assert ft == [t];
      assert ft[..0] == [];
      assert ApplyAll(mid, ft) == Apply(mid, t);
      ApplyUnrecognised(mid, t);
    } else {
      assert ft == [];
    }
  }
}
