/** Properties of whole runs: batching never changes which records are written, a
    run whose changesets are complete never hits a schema change, and a run with
    at most one chunk's worth of changesets never does either. Concrete runs show
    the last `tag` child winning and the outcome depending on the chunk size. */
module Properties {
  import opened Xml
  import opened Changeset
  import opened Batching
  import opened Parquet
  import opened Converter

  /** The records the file should hold, in order, are the same for every chunk size. */
  lemma ChunkSizeIrrelevant(events: seq<Element>, c1: int, c2: int)
    ensures Flatten(Planned(events, c1)) == Records(events)
    ensures Flatten(Planned(events, c1)) == Flatten(Planned(events, c2))
  {
    ChunksFlatten(Records(events), BatchLimit(c1));
    ChunksFlatten(Records(events), BatchLimit(c2));
  }

  /** Events without any changeset element yield no records and no table. */
  lemma {:induction false} NoChangesets(events: seq<Element>)
    requires forall k :: 0 <= k < |events| ==> events[k].tag != "changeset"
    ensures Records(events) == []
    decreases |events|
  {
    if events != [] {
      var prefix := events[..|events| - 1];
      assert forall k :: 0 <= k < |prefix| ==> prefix[k] == events[k];
      NoChangesets(prefix);
    }
  }

  /** At most one chunk's worth of changesets means at most one table, so the run
      cannot hit a schema change. */
  lemma OneChunkSameSchema(events: seq<Element>, chunkSize: int)
    requires |Records(events)| <= BatchLimit(chunkSize)
    ensures |Planned(events, chunkSize)| <= 1
    ensures SameSchema(Planned(events, chunkSize))
  {
    ChunksSmall(Records(events), BatchLimit(chunkSize));
  }

  /** Every column of the record holds a string. */
  predicate CompleteRecord(r: Record)
  {
    forall i :: 0 <= i < |COLUMNS| ==> Row(r)[i].Some?
  }

  /** A changeset element that carries all nine attributes and whose `tag` children
      all carry a `v` attribute. */
  predicate CompleteElement(e: Element)
  {
    (forall i :: 0 <= i < ATTRIBUTE_COUNT ==> COLUMNS[i] in e.attrs) &&
    forall j :: 0 <= j < |TagChildren(e)| ==> "v" in TagChildren(e)[j].attrs
  }

  /** The schema of a table whose every column was inferred as string. */
  function StringSchema(): (s: Schema)
    ensures |s| == |COLUMNS|
    ensures forall i :: 0 <= i < |s| ==> s[i] == Field(COLUMNS[i], StringType)
  {
    seq(|COLUMNS|, i requires 0 <= i < |COLUMNS| => Field(COLUMNS[i], StringType))
  }

  lemma {:induction false} ApplyAllPresent(start: Record, tags: seq<Element>, i: nat)
    requires i < |COLUMNS| && Row(start)[i].Some?
    requires forall j :: 0 <= j < |tags| ==> "v" in tags[j].attrs
    ensures Row(ApplyAll(start, tags))[i].Some?
    decreases |tags|
  {
    if tags != [] {
      var prefix := tags[..|tags| - 1];
      assert forall j :: 0 <= j < |prefix| ==> prefix[j] == tags[j];
      ApplyAllPresent(start, prefix, i);
      assert "v" in tags[|tags| - 1].attrs;
    }
  }

  /** A complete changeset element becomes a record with no None in it. */
  lemma ProjectComplete(e: Element)
    requires CompleteElement(e)
    ensures CompleteRecord(Project(e))
  {
    ProjectAttributes(e);
    forall i | ATTRIBUTE_COUNT <= i < |COLUMNS|
      ensures Row(Project(e))[i].Some?
    {
      ApplyAllPresent(Defaults(e), TagChildren(e), i);
    }
  }

  /** A non-empty chunk of complete records has the all-string schema. */
  lemma SchemaOfComplete(chunk: seq<Record>)
    requires chunk != [] && forall k :: 0 <= k < |chunk| ==> CompleteRecord(chunk[k])
    ensures SchemaOf(chunk) == StringSchema()
  {
    var s := SchemaOf(chunk);
    forall i | 0 <= i < |COLUMNS|
      ensures s[i] == StringSchema()[i]
    {
      assert Row(chunk[0])[i].Some?;
    }
  }

  lemma {:induction false} RecordsComplete(events: seq<Element>)
    requires forall k :: 0 <= k < |events| && events[k].tag == "changeset" ==> CompleteElement(events[k])
    ensures forall r :: r in Records(events) ==> CompleteRecord(r)
    decreases |events|
  {
    if events != [] {
      var prefix, last := events[..|events| - 1], events[|events| - 1];
      assert forall k :: 0 <= k < |prefix| ==> prefix[k] == events[k];
      RecordsComplete(prefix);
      if last.tag == "changeset" {
        ProjectComplete(last);
      }
    }
  }

  /** When every changeset element is complete, every table has the all-string
      schema, so the run ends normally whatever the chunk size. */
  lemma CompleteRunSameSchema(events: seq<Element>, chunkSize: int)
    requires forall k :: 0 <= k < |events| && events[k].tag == "changeset" ==> CompleteElement(events[k])
    ensures forall k :: 0 <= k < |Planned(events, chunkSize)| ==>
      SchemaOf(Planned(events, chunkSize)[k]) == StringSchema()
    ensures SameSchema(Planned(events, chunkSize))
  {
    var xs, n := Records(events), BatchLimit(chunkSize);
    var bs := Chunks(xs, n);
    RecordsComplete(events);
    ChunksSizes(xs, n);
    forall k | 0 <= k < |bs|
      ensures SchemaOf(bs[k]) == StringSchema()
    {
      forall j | 0 <= j < |bs[k]|
        ensures CompleteRecord(bs[k][j])
      {
        ChunksMember(xs, n, k, j);
      }
      SchemaOfComplete(bs[k]);
    }
  }

  /** The nine attributes of a changeset, all present. */
  const ATTRS: map<string, string> := map[
    "id" := "1", "created_at" := "2020-01-01T00:00:00Z", "uid" := "7", "user" := "ann",
    "num_changes" := "2", "min_lat" := "1.0", "min_lon" := "2.0", "max_lat" := "1.5",
    "max_lon" := "2.5"]

  function Tag(k: string, v: string): (t: Element)
    ensures t.tag == "tag" && Get(t, "k") == Some(k) && Get(t, "v") == Some(v)
  {
    Element("tag", map["k" := k, "v" := v], [])
  }

  /** Two `created_by` tags around a non-`tag` child: the second tag wins, the
      other child is ignored, and the untouched optional columns stay "". */
  lemma LastTagWinsExample()
    ensures var e := Element("changeset", ATTRS, [Tag("created_by", "JOSM"), Element("nd", map[], []),
                                                  Tag("created_by", "iD")]);
      Project(e).createdBy == Some("iD") && Project(e).imageryUsed == Some("") &&
      Project(e).host == Some("") && Project(e).changesetsCount == Some("") &&
      Project(e).hashtags == Some("") && Project(e).minLat == Some("1.0")
  {
    var e := Element("changeset", ATTRS, [Tag("created_by", "JOSM"), Element("nd", map[], []),
                                          Tag("created_by", "iD")]);
    var t1, t2 := Tag("created_by", "JOSM"), Tag("created_by", "iD");
    assert TagChildren(e) == [t1, t2];
    var d := Defaults(e);
    assert [t1, t2][..1] == [t1] && [t1][..0] == [];
    assert ApplyAll(d, [t1]) == Apply(d, t1);
    assert Project(e) == Apply(Apply(d, t1), t2);
  }

  /** A changeset with every attribute and no children, and one lacking `min_lat`. */
  const FULL: Element := Element("changeset", ATTRS, [])
  const NO_MIN_LAT: Element := Element("changeset", ATTRS - {"min_lat"}, [])

  lemma ExampleRecords()
    ensures Records([FULL, NO_MIN_LAT]) == [Project(FULL), Project(NO_MIN_LAT)]
  {
    assert [FULL, NO_MIN_LAT][..1] == [FULL];
    assert [FULL][..0] == [];
  }

  lemma ExampleMinLat()
    ensures Row(Project(FULL))[5] == Some("1.0") && Row(Project(NO_MIN_LAT))[5] == None
  {
    ProjectAttributes(FULL);
    ProjectAttributes(NO_MIN_LAT);
    assert "min_lat" !in NO_MIN_LAT.attrs;
  }

  lemma ExampleSchemas()
    ensures SchemaOf([Project(FULL)])[5].kind == StringType
    ensures SchemaOf([Project(NO_MIN_LAT)])[5].kind == NullType
  {
    ExampleMinLat();
    var c1, c2 := [Project(FULL)], [Project(NO_MIN_LAT)];
    assert Row(c1[0])[5].Some?;
    assert forall k :: 0 <= k < |c2| ==> c2[k] == Project(NO_MIN_LAT);
  }

  /** The same two changesets, the second lacking `min_lat`: in one table they share
      a schema, but in tables of one row each the second table's `min_lat` column
      is null-typed and the writer refuses it. */
  lemma ChunkSizeDecidesOutcome()
    ensures SameSchema(Planned([FULL, NO_MIN_LAT], 2))
    ensures !SameSchema(Planned([FULL, NO_MIN_LAT], 1))
  {
    var r1, r2 := Project(FULL), Project(NO_MIN_LAT);
    ExampleRecords();
    ChunksOfPair(r1, r2);
    ExampleSchemas();
    assert Planned([FULL, NO_MIN_LAT], 1)[1] == [r2];
  }

  /** The refusal goes both ways: when the first one-row table lacks `min_lat`, the
      writer is opened with a null-typed column and the later string-typed table
      is refused. */
  lemma MissingFirstAlsoAborts()
    ensures !SameSchema(Planned([NO_MIN_LAT, FULL], 1))
  {
    var r1, r2 := Project(NO_MIN_LAT), Project(FULL);
    assert [NO_MIN_LAT, FULL][..1] == [NO_MIN_LAT];
    assert [NO_MIN_LAT][..0] == [];
    assert Records([NO_MIN_LAT, FULL]) == [r1, r2];
    ChunksOfPair(r1, r2);
    ExampleSchemas();
    assert Planned([NO_MIN_LAT, FULL], 1)[1] == [r2];
  }
}
