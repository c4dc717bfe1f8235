/** The driver, `convert_xml_to_parquet`: one pass over the parser's "end" events,
    projecting every `changeset` element, accumulating the records into a chunk,
    writing the chunk whenever it reaches the chunk size, writing and closing on a
    non-empty remainder, and counting rows for progress messages. */
module Converter {
  import opened Xml
  import opened Changeset
  import opened Batching
  import opened Parquet

  /** A progress message is printed every PROGRESS_EVERY rows. */
  const PROGRESS_EVERY: nat := 1000000

  /** How a run ends: normally, or with the ValueError write_table raises for a
      table whose schema is not the writer's. */
  datatype Outcome = Done | SchemaMismatch(expected: Schema, actual: Schema)

  /** The records of the changeset elements among the events, in event order;
      every other element yields none. */
  function Records(events: seq<Element>): (rs: seq<Record>)
    ensures |rs| <= |events|
    decreases |events|
  {
    if events == [] then []
    else
      var last := events[|events| - 1];
      Records(events[..|events| - 1]) + (if last.tag == "changeset" then [Project(last)] else [])
  }

  function Tags(events: seq<Element>): (tags: seq<string>)
  {
    seq(|events|, i requires 0 <= i < |events| => events[i].tag)
  }

  /** Exactly one record per `changeset` event: as many records as there are
      occurrences of "changeset" among the events' tags. */
  lemma {:induction false} RecordsCount(events: seq<Element>)
    ensures |Records(events)| == multiset(Tags(events))["changeset"]
    decreases |events|
  {
    if events != [] {
      var prefix := events[..|events| - 1];
      RecordsCount(prefix);
      assert Tags(events) == Tags(prefix) + [events[|events| - 1].tag];
    }
  }

  lemma RecordsStep(events: seq<Element>, i: nat)
    requires i < |events|
    ensures Records(events[..i + 1]) ==
      Records(events[..i]) + if events[i].tag == "changeset" then [Project(events[i])] else []
  {
    assert events[..i + 1][..i] == events[..i];
  }

  lemma {:induction false} RecordsAppend(a: seq<Element>, b: seq<Element>)
    ensures Records(a + b) == Records(a) + Records(b)
    decreases |b|
  {
    if b == [] {
      assert a + b == a;
    } else {
      assert (a + b)[..|a + b| - 1] == a + b[..|b| - 1];
      RecordsAppend(a, b[..|b| - 1]);
    }
  }

  /** The chunk size the test `len(data_chunk) >= chunk_size` acts as: once a record
      has been appended the chunk is never empty, so a size below 1 behaves as 1. */
  function BatchLimit(chunkSize: int): (n: nat)
    ensures n >= 1
  {
    if chunkSize < 1 then 1 else chunkSize
  }

  lemma BatchLimitTest(chunkSize: int, len: nat)
    requires len >= 1
    ensures len >= chunkSize <==> len >= BatchLimit(chunkSize)
  {
  }

  /** The numbers the progress messages report after `count` rows: one message for
      each positive multiple of PROGRESS_EVERY, reporting that multiple in millions. */
  function ProgressLog(count: nat): (log: seq<nat>)
    ensures |log| == count / PROGRESS_EVERY
    ensures forall k :: 0 <= k < |log| ==> log[k] == k + 1
  {
    seq(count / PROGRESS_EVERY, k => k + 1)
  }

  /** One more row extends the log by a message exactly when the new count is a
      multiple of PROGRESS_EVERY. */
  lemma ProgressStep(count: nat)
    ensures ProgressLog(count + 1) ==
      ProgressLog(count) + if (count + 1) % PROGRESS_EVERY == 0 then [(count + 1) / PROGRESS_EVERY] else []
  {
    if (count + 1) % PROGRESS_EVERY == 0 {
      assert (count + 1) / PROGRESS_EVERY == count / PROGRESS_EVERY + 1;
    } else {
      assert (count + 1) / PROGRESS_EVERY == count / PROGRESS_EVERY;
    }
  }

  /** The batches the events should produce: their records cut into chunks of the
      chunk size. */
  ghost function Planned(events: seq<Element>, chunkSize: int): (bs: seq<seq<Record>>)
    ensures Flatten(bs) == Records(events)
    ensures Bounded(bs, BatchLimit(chunkSize)) && FullButLast(bs, BatchLimit(chunkSize))
  {
    ChunksFlatten(Records(events), BatchLimit(chunkSize));
    ChunksSizes(Records(events), BatchLimit(chunkSize));
    Chunks(Records(events), BatchLimit(chunkSize))
  }

  /** `row_counter += 1` and the progress message printed at every multiple of
      PROGRESS_EVERY. */
  method CountRow(count: nat, progress: seq<nat>) returns (count': nat, progress': seq<nat>)
    requires progress == ProgressLog(count)
    ensures count' == count + 1 && progress' == ProgressLog(count')
  {
    ProgressStep(count);
    count' := count + 1;
    progress' := progress;
    if count' % PROGRESS_EVERY == 0 {
      progress' := progress' + [count' / PROGRESS_EVERY];
    }
  }

  /** Every batch has the schema of the first. */
  ghost predicate SameSchema(bs: seq<seq<Record>>)
  {
    forall k :: 0 <= k < |bs| ==> SchemaOf(bs[k]) == SchemaOf(bs[0])
  }

  /** Building the table and writing it: the writer is created from that table's
      schema when it does not exist yet, then the table is written. */
  method WriteChunk(w: Writer, chunk: seq<Record>) returns (ok: bool)
    requires w.Valid() && !w.closed
    modifies w
    ensures w.Valid() && !w.closed && w.schema.Some?
    ensures w.schema == if old(w.schema).None? then Some(SchemaOf(chunk)) else old(w.schema)
    ensures ok <==> SchemaOf(chunk) == w.schema.value
    ensures w.batches == if ok then old(w.batches) + [chunk] else old(w.batches)
  {
    if w.schema.None? {
      w.Open(SchemaOf(chunk));
    }
    ok := w.WriteTable(chunk);
  }

  /** Appending one record to the chunk and writing the chunk once it reaches the
      chunk size. The written records followed by the chunk grow by exactly `r`;
      when the table is refused, the full chunk is returned unwritten. */
  method AddRecord(w: Writer, chunk: seq<Record>, r: Record, chunkSize: int)
    returns (chunk': seq<Record>, ok: bool)
    requires w.Valid() && !w.closed && (w.schema.None? <==> w.batches == [])
    requires AllFull(w.batches, BatchLimit(chunkSize)) && |chunk| < BatchLimit(chunkSize)
    modifies w
    ensures w.Valid() && !w.closed && (w.schema.None? <==> w.batches == [])
    ensures AllFull(w.batches, BatchLimit(chunkSize))
    ensures Flatten(w.batches) + chunk' == Flatten(old(w.batches)) + chunk + [r]
    ensures ok ==> |chunk'| < BatchLimit(chunkSize)
    ensures |chunk| + 1 < BatchLimit(chunkSize) ==> ok && chunk' == chunk + [r] && w.batches == old(w.batches)
    ensures ok && |chunk| + 1 == BatchLimit(chunkSize) ==>
      chunk' == [] && w.batches == old(w.batches) + [chunk + [r]]
    ensures !ok ==> |chunk'| == BatchLimit(chunkSize) && w.batches != [] &&
                    SchemaOf(chunk') != SchemaOf(w.batches[0])
  {
    chunk' := chunk + [r];
    ok := true;
    BatchLimitTest(chunkSize, |chunk'|);
    if |chunk'| >= chunkSize {
      ok := WriteChunk(w, chunk');
      ConcatAssoc(Flatten(old(w.batches)), chunk, [r]);
      if ok {
        FlattenAppend(old(w.batches), [chunk']);
        assert Flatten([chunk']) == chunk' + Flatten([]);
        chunk' := [];
      }
    } else {
      ConcatAssoc(Flatten(w.batches), chunk, [r]);
    }
  }

  /** The loop over the events: every changeset element is projected and added to
      the chunk, full chunks are written, and rows are counted. When it ends normally
      the records not yet written are the chunk; when a table is refused, the batches
      written are a prefix of the planned ones and the next planned one is refused. */
  method StreamEvents(w: Writer, events: seq<Element>, chunkSize: int)
    returns (chunk: seq<Record>, outcome: Outcome, count: nat, progress: seq<nat>)
    requires w.Valid() && !w.closed && w.schema.None?
    modifies w
    ensures w.Valid() && !w.closed && (w.schema.None? <==> w.batches == [])
    ensures AllFull(w.batches, BatchLimit(chunkSize))
    ensures progress == ProgressLog(count) && count <= |Records(events)|
    ensures outcome == Done ==>
      Flatten(w.batches) + chunk == Records(events) &&
      |chunk| < BatchLimit(chunkSize) && count == |Records(events)|
    ensures outcome.SchemaMismatch? ==>
      w.batches <= Planned(events, chunkSize) &&
      |w.batches| < |Planned(events, chunkSize)| && !SameSchema(Planned(events, chunkSize)) &&
      SchemaOf(Planned(events, chunkSize)[|w.batches|]) != SchemaOf(Planned(events, chunkSize)[0]) &&
      w.batches != [] && Planned(events, chunkSize)[0] == w.batches[0]
    ensures outcome.SchemaMismatch? ==>
      |Planned(events, chunkSize)[|w.batches|]| == BatchLimit(chunkSize) &&
      count + 1 == |Flatten(w.batches)| + BatchLimit(chunkSize)
  {
    ghost var n := BatchLimit(chunkSize);
    outcome := Done;
    count, progress := 0, [];
    chunk := [];
    var i := 0;
    while i < |events|
      invariant 0 <= i <= |events|
      invariant w.Valid() && !w.closed
      invariant w.schema.None? <==> w.batches == []
      invariant Flatten(w.batches) + chunk == Records(events[..i])
      invariant AllFull(w.batches, n) && |chunk| < n
      invariant count == |Records(events[..i])|
      invariant progress == ProgressLog(count)
    {
      var e := events[i];
      RecordsStep(events, i);
      if e.tag == "changeset" {
        var r := ProjectChangeset(e);
        var ok;
        chunk, ok := AddRecord(w, chunk, r, chunkSize);
        if !ok {
          outcome := SchemaMismatch(w.schema.value, SchemaOf(chunk));
          MismatchInLoop(events, chunkSize, i, w.batches, chunk, count);
          return;
        }
        count, progress := CountRow(count, progress);
      }
      i := i + 1;
    }
    assert events[..i] == events;
  }

  /** The whole conversion. The batches the file receives are the records cut into
      chunks of the chunk size, up to the first table whose schema differs from the
      first table's; the writer exists exactly when a table was written and is closed
      exactly when the run ends normally on a non-empty remainder. */
  method ConvertXmlToParquet(events: seq<Element>, chunkSize: int)
    returns (w: Writer, outcome: Outcome, count: nat, progress: seq<nat>)
    ensures fresh(w) && w.Valid()
    ensures w.batches <= Planned(events, chunkSize)
    ensures outcome == Done <==> SameSchema(Planned(events, chunkSize))
    ensures outcome == Done ==> w.batches == Planned(events, chunkSize)
    ensures outcome.SchemaMismatch? ==> |w.batches| < |Planned(events, chunkSize)|
    ensures outcome.SchemaMismatch? ==>
      SchemaOf(Planned(events, chunkSize)[|w.batches|]) != SchemaOf(Planned(events, chunkSize)[0])
    ensures w.schema.None? <==> w.batches == []
    ensures Records(events) == [] ==> w.schema.None? && !w.closed
    ensures w.schema.Some? ==> w.schema.value == SchemaOf(Planned(events, chunkSize)[0])
    ensures w.closed <==> outcome == Done && |Records(events)| % BatchLimit(chunkSize) != 0
    ensures count <= |Records(events)|
    ensures outcome == Done ==> count == |Records(events)|
    ensures outcome.SchemaMismatch? ==>
      count == |Flatten(w.batches)| + |Planned(events, chunkSize)[|w.batches|]| -
               (if |Planned(events, chunkSize)[|w.batches|]| == BatchLimit(chunkSize) then 1 else 0)
    ensures progress == ProgressLog(count)
  {
    w := new Writer();
    var chunk;
    chunk, outcome, count, progress := StreamEvents(w, events, chunkSize);
    if outcome == Done {
      outcome := FinishRun(w, events, chunkSize, chunk);
    }
  }

  /** After the loop: the non-empty remainder is written, creating the writer when
      no table was written before, and the writer is then closed; a refused remainder
      ends the run with the writer open. */
  method FinishRun(w: Writer, events: seq<Element>, chunkSize: int, chunk: seq<Record>)
    returns (outcome: Outcome)
    requires w.Valid() && !w.closed && (w.schema.None? <==> w.batches == [])
    requires AllFull(w.batches, BatchLimit(chunkSize)) && |chunk| < BatchLimit(chunkSize)
    requires Flatten(w.batches) + chunk == Records(events)
    modifies w
    ensures w.Valid()
    ensures w.batches <= Planned(events, chunkSize)
    ensures outcome == Done <==> SameSchema(Planned(events, chunkSize))
    ensures outcome == Done ==> w.batches == Planned(events, chunkSize)
    ensures outcome.SchemaMismatch? ==>
      |w.batches| < |Planned(events, chunkSize)| && Planned(events, chunkSize)[|w.batches|] == chunk &&
      SchemaOf(chunk) != SchemaOf(Planned(events, chunkSize)[0])
    ensures w.schema.None? <==> w.batches == []
    ensures outcome.SchemaMismatch? ==> w.batches == old(w.batches)
    ensures w.schema.Some? ==>
      Planned(events, chunkSize) != [] && w.schema.value == SchemaOf(Planned(events, chunkSize)[0])
    ensures w.closed <==> outcome == Done && |Records(events)| % BatchLimit(chunkSize) != 0
  {
    outcome := Done;
    EndOfStream(events, chunkSize, w.batches, chunk);
    if chunk != [] {
      var ok := WriteChunk(w, chunk);
      if !ok {
        outcome := SchemaMismatch(w.schema.value, SchemaOf(chunk));
        return;
      }
      w.Close();
    }
  }

  /** At the end of the events the batches still to come are the remainder alone;
      the remainder is non-empty exactly when the row count is not a multiple of
      the chunk size; and a refused remainder is a schema change within the run. */
  lemma EndOfStream(events: seq<Element>, chunkSize: int, written: seq<seq<Record>>, chunk: seq<Record>)
    requires AllFull(written, BatchLimit(chunkSize)) && |chunk| < BatchLimit(chunkSize)
    requires Flatten(written) + chunk == Records(events)
    ensures Planned(events, chunkSize) == written + if chunk == [] then [] else [chunk]
    ensures chunk != [] <==> |Records(events)| % BatchLimit(chunkSize) != 0
    ensures chunk != [] && written != [] && SchemaOf(chunk) != SchemaOf(written[0]) ==>
      !SameSchema(Planned(events, chunkSize))
    ensures written != [] ==> Planned(events, chunkSize)[0] == written[0]
  {
    var n, rs := BatchLimit(chunkSize), Records(events);
    ChunksOfFull(written, chunk, n);
    FlattenFullLength(written, n);
    DivModUnique(|rs|, n, |written|, |chunk|);
    var bs := Planned(events, chunkSize);
    if chunk != [] {
      assert bs[|written|] == chunk;
    }
  }

  /** When a full chunk's table is refused, the written batches are the first
      |written| batches of the whole run and the refused chunk is the next one,
      so the run's batches do not all share one schema. */
  lemma MismatchInLoop(events: seq<Element>, chunkSize: int, i: nat, written: seq<seq<Record>>,
                       chunk: seq<Record>, count: nat)
    requires i < |events| && AllFull(written, BatchLimit(chunkSize)) && |chunk| == BatchLimit(chunkSize)
    requires Flatten(written) + chunk == Records(events[..i + 1])
    requires written != [] && SchemaOf(chunk) != SchemaOf(written[0])
    requires events[i].tag == "changeset" && count == |Records(events[..i])|
    ensures var bs := Planned(events, chunkSize);
      written <= bs && |written| < |bs| && bs[|written|] == chunk && bs[0] == written[0]
    ensures !SameSchema(Planned(events, chunkSize))
    ensures count <= |Records(events)|
    ensures count + 1 == |Flatten(written)| + BatchLimit(chunkSize)
  {
    var n := BatchLimit(chunkSize);
    RecordsPrefix(events, i + 1);
    RecordsStep(events, i);
    ChunksPrefixFull(written, chunk, Records(events), n);
  }

  /** The records of a prefix of the events are a prefix of all the records. */
  lemma {:induction false} RecordsPrefix(events: seq<Element>, i: nat)
    requires i <= |events|
    ensures Records(events[..i]) <= Records(events)
    decreases |events|
  {
    if i == |events| {
      assert events[..i] == events;
    } else {
      var prefix := events[..|events| - 1];
      assert prefix[..i] == events[..i];
      RecordsPrefix(prefix, i);
      PrefixOfConcat(Records(prefix), Records(events)[|Records(prefix)|..]);
    }
  }
}
