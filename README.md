# OSM changeset dump to Parquet: a verified model of the converter

This project models `convert_xml_to_parquet` from `osm_bz2_to_parquet.py`. That
function reads an OpenStreetMap changeset dump in one pass over the XML parser's
"end" events. It projects every `changeset` element into a flat record of fourteen
values, each a string or None. It collects the records in a chunk and writes the chunk as a
Parquet table whenever the chunk reaches the chunk size. At the end it writes the
non-empty remainder and closes the writer.

The model has six modules, one per stage of the pipeline and one of whole-run properties:

- `Xml` (`xml.dfy`): parsed elements and the parts of ElementTree the converter
  uses. `element.get` returns an `Option`; `findall('tag')` returns the immediate
  children with that tag.
- `Changeset` (`changeset.dfy`): the record projection. It has a pure
  specification `Project`, and a method `ProjectChangeset` that runs the source's
  loop over the `tag` children and is proved to compute `Project`.
- `Batching` (`batching.dfy`): `Chunks`, the specification of the batches that
  appending and flushing produce, and lemmas about it: conservation, batch sizes,
  batch counts, and the prefix structure.
- `Parquet` (`parquet.dfy`): the column types pyarrow infers for a chunk, the
  resulting table schema, and a `Writer` class. The writer holds the schema it was
  opened with, whether it is closed, and the tables it has accepted.
- `Converter` (`converter.dfy`): the driver loop as an imperative method over the
  events, proved against `Planned`, the records cut into chunks.
- `Properties` (`properties.dfy`): whole-run facts and concrete runs.

How the model behaves:

- The input is the finite sequence of elements handed over at "end" events, in
  document order.
- The chunk buffer `data_chunk` and the row counter are local variables of the
  driver method. The writer is a heap object that the driver creates and updates.
- The progress messages are returned as the sequence of numbers they report.
- The writer refuses a table whose schema differs from the one it was opened
  with, as `ParquetWriter.write_table` does. That refusal is the run's error
  outcome (`Outcome.SchemaMismatch`).

Three behaviours of the code are easy to miss, and the model keeps all three.

- **A missing value can abort a run.** pyarrow infers a column as null-typed when
  every value of that column in a table is `None`, and as string-typed otherwise.
  The writer refuses any table whose column types differ from the first table's,
  and the run aborts. The refusal goes both ways: a later null-typed column after
  a string-typed first one, or a later string-typed column after a null-typed
  first one. It takes only one missing attribute, or one `tag` child without `v`,
  in a chunk where no other record has that value.
  `Properties.ChunkSizeDecidesOutcome` exhibits this: the same two changesets
  succeed with chunk size 2 and fail with chunk size 1.
  `Properties.MissingFirstAlsoAborts` shows the reverse direction.
  `Properties.CompleteRunSameSchema` shows that runs whose changesets are complete
  never fail.
- **`close()` is called only on a non-empty remainder.** It is not called when the
  count is a positive multiple of the chunk size, nor after a refused table.
- **Zero changesets create no file.** No writer is ever opened in that case.

## Model

| member | source | states |
|---|---|---|
| Xml.Get | osm_bz2_to_parquet.py:24-32 | `element.get(name)` has a value exactly when the element carries the attribute, and that value is the attribute's |
| Xml.FindAll | osm_bz2_to_parquet.py:44 | `findall('tag')`: the found children all carry the tag, and there are no more of them than children |
| Xml.FindAllMembers | osm_bz2_to_parquet.py:44 | an element is found exactly when it is a child with that tag (both directions) |
| Xml.FindAllAppend | osm_bz2_to_parquet.py:44 | searching concatenated children is searching each part in order |
| Changeset.Row | osm_bz2_to_parquet.py:23-42 | every record has the same fourteen fields, in the key order of the record literal |
| Changeset.Defaults | osm_bz2_to_parquet.py:23-42 | before any `tag` child is read, the nine attribute fields are the attributes (None when missing) and the five optional fields are "" |
| Changeset.Apply | osm_bz2_to_parquet.py:45-54 | one pass of the if/elif chain: an optional column whose key equals the child's `k` receives the child's `v`, and every other column is unchanged |
| Changeset.ApplyAll | osm_bz2_to_parquet.py:44-54 | applying the `tag` children never changes the nine attribute columns |
| Changeset.TagChildren | osm_bz2_to_parquet.py:44 | `element.findall('tag')`: only `tag` children, and no more of them than children |
| Changeset.Project | osm_bz2_to_parquet.py:23-54 | the record built for a changeset element; its nine attribute columns are those of the record literal |
| Changeset.ProjectAttributes | osm_bz2_to_parquet.py:24-32 | the nine attribute columns of a projected record equal the element's attributes verbatim, or None when absent, whatever the children are |
| Changeset.ProjectChangeset | osm_bz2_to_parquet.py:23-54 | the record literal followed by the loop over `findall('tag')` computes `Project` |
| Changeset.ApplyAllUnnamed | osm_bz2_to_parquet.py:44-54 | a column named by no `tag` child keeps its starting value |
| Changeset.ApplyAllLastWins | osm_bz2_to_parquet.py:44-54 | a column named by some `tag` child holds the `v` of the last child naming it, in document order |
| Changeset.ProjectOptionalColumn | osm_bz2_to_parquet.py:34-54 | an optional column of a projected record is "" when no immediate `tag` child has its key, and otherwise the `v` of the last such child |
| Changeset.ApplyAllAppend | osm_bz2_to_parquet.py:44-54 | applying concatenated children is applying each part in turn |
| Changeset.ApplyUnrecognised | osm_bz2_to_parquet.py:45-54 | a `tag` child whose key is none of the five leaves the record unchanged |
| Changeset.UnrecognisedChildIgnored | osm_bz2_to_parquet.py:44-54 | removing a non-`tag` child, or a `tag` child with an unrecognised key, leaves the projected record unchanged |
| Batching.Chunks | osm_bz2_to_parquet.py:57-98 | the batches the loop and the final flush write: none exactly when there are no records, and the first holds the first `n` records, or all of them when fewer |
| Batching.ChunksFlatten | osm_bz2_to_parquet.py:57-98 | all batches, concatenated in order, are exactly the records: none are lost, duplicated or reordered, for every chunk size |
| Batching.ChunksSizes | osm_bz2_to_parquet.py:63-98 | no batch is empty or larger than the chunk size, and every batch but the last has exactly the chunk size |
| Batching.ChunksCount | osm_bz2_to_parquet.py:63-98 | there are count / size full batches, and a trailing batch of count mod size records exactly when that remainder is non-zero |
| Batching.ChunksLength | osm_bz2_to_parquet.py:63-98 | the record count is the number of full batches times the size plus the size of the last batch |
| Batching.ChunksOfFull | osm_bz2_to_parquet.py:92-98 | full batches followed by a shorter remainder cut back into those batches and then the remainder, if it is non-empty |
| Batching.ChunksAfterFull | osm_bz2_to_parquet.py:63-82 | full batches already cut are the first batches of the whole cut |
| Batching.ChunksNextFull | osm_bz2_to_parquet.py:63-82 | a full chunk that follows full batches is the next batch of the cut |
| Batching.ChunksPrefixFull | osm_bz2_to_parquet.py:63-82 | full batches and one more full chunk at the front of the records are the first batches of the cut |
| Batching.ChunksMember | osm_bz2_to_parquet.py:57-82 | every record in every batch is one of the records |
| Batching.ChunksSmall | osm_bz2_to_parquet.py:92-98 | at most one chunk's worth of records gives one batch, or none when there are no records |
| Parquet.ColumnTypeOf | osm_bz2_to_parquet.py:65-66 | a column is string-typed exactly when some record in the chunk has a value in it, and null-typed otherwise |
| Parquet.SchemaOf | osm_bz2_to_parquet.py:65-66 | a table built from a non-empty chunk has the fourteen columns in key order, each typed by inference |
| Parquet.Writer.Valid | osm_bz2_to_parquet.py:13-101 | the writer invariant: nothing is written or closed before the writer exists, and every table written has the schema the writer was created with |
| Parquet.Writer.constructor | osm_bz2_to_parquet.py:13 | no writer exists yet: no schema, nothing written, not closed |
| Parquet.Writer.Open | osm_bz2_to_parquet.py:68-69 | the writer is created once, from a given schema, with nothing written |
| Parquet.Writer.WriteTable | osm_bz2_to_parquet.py:72-79 | a table is appended exactly when its schema equals the writer's; otherwise nothing is written |
| Parquet.Writer.Close | osm_bz2_to_parquet.py:100-101 | the writer is closed, with its schema and tables unchanged |
| Converter.Records | osm_bz2_to_parquet.py:19-57 | the events yield at most one record each |
| Converter.RecordsCount | osm_bz2_to_parquet.py:19-57 | there is exactly one record per `changeset` event, and none for any other event |
| Converter.RecordsStep | osm_bz2_to_parquet.py:19-57 | one more event adds its projected record when it is a `changeset`, and nothing otherwise |
| Converter.RecordsAppend | osm_bz2_to_parquet.py:19-57 | the records of concatenated event sequences are the records of each part, in order |
| Converter.RecordsPrefix | osm_bz2_to_parquet.py:19-57 | the records of a prefix of the events are a prefix of all the records |
| Converter.BatchLimit | osm_bz2_to_parquet.py:63 | the effective chunk size is at least 1 |
| Converter.BatchLimitTest | osm_bz2_to_parquet.py:63 | for a non-empty chunk, `len(data_chunk) >= chunk_size` holds exactly when the length reaches the effective chunk size |
| Converter.Planned | osm_bz2_to_parquet.py:57-98 | the batches a run should write: concatenated they are exactly the records, none is empty or over the chunk size, and all but the last are full |
| Converter.ProgressLog | osm_bz2_to_parquet.py:86-88 | after `count` rows there have been count / 1000000 messages, the k-th reporting k million |
| Converter.ProgressStep | osm_bz2_to_parquet.py:86-88 | one more row adds a message exactly when the new count is a multiple of 1000000 |
| Converter.CountRow | osm_bz2_to_parquet.py:86-88 | the counter goes up by one, and the messages stay those the new count calls for |
| Converter.WriteChunk | osm_bz2_to_parquet.py:65-79 | the writer is created from this table's schema if it does not exist yet; the table is written exactly when its schema equals the writer's |
| Converter.AddRecord | osm_bz2_to_parquet.py:57-84 | the written records followed by the chunk grow by exactly the new record; a chunk that reaches the size is written and emptied; a refused chunk is kept and differs in schema from the first table |
| Converter.StreamEvents | osm_bz2_to_parquet.py:19-88 | a normal end of the loop has written full batches, and these followed by the remainder are all the records; a refused table is the next planned batch, is full, and breaks schema agreement; the row counter then stands one short of the records written plus the refused chunk |
| Converter.ConvertXmlToParquet | osm_bz2_to_parquet.py:8-101 | the writer receives a prefix of the planned batches; the run ends normally exactly when all planned batches share one schema, and then it receives them all; it is opened exactly when a table was written, with the first batch's schema; it is closed exactly when the run ends normally on a non-empty remainder; the row counter is the number of records on a normal end, and on a refusal it counts every record before the one whose append triggered the refused write (all of the refused final remainder); the progress messages are those the counter calls for |
| Converter.FinishRun | osm_bz2_to_parquet.py:92-101 | the non-empty remainder is written, opening the writer if needed, and the writer is closed; a refused remainder is the last planned batch, leaves the tables unchanged and the writer open |
| Converter.EndOfStream | osm_bz2_to_parquet.py:92-98 | after the loop, the planned batches are those written plus the remainder, which is non-empty exactly when the count is not a multiple of the size |
| Converter.MismatchInLoop | osm_bz2_to_parquet.py:63-79 | a full chunk refused inside the loop is the next planned batch, so the planned batches do not share one schema |
| Properties.ChunkSizeIrrelevant | osm_bz2_to_parquet.py:57-98 | the records the file should hold, in order, are the same for every chunk size |
| Properties.NoChangesets | osm_bz2_to_parquet.py:19-21 | events with no `changeset` element yield no records, so no table is written and no writer is opened |
| Properties.OneChunkSameSchema | osm_bz2_to_parquet.py:63-98 | at most one chunk's worth of changesets gives at most one table, so the run ends normally |
| Properties.StringSchema | osm_bz2_to_parquet.py:65-66 | the all-string schema has the fourteen columns in key order |
| Properties.ApplyAllPresent | osm_bz2_to_parquet.py:44-54 | `tag` children that all carry `v` never put None into a column |
| Properties.ProjectComplete | osm_bz2_to_parquet.py:23-54 | a changeset with all nine attributes, whose `tag` children all carry `v`, projects to a record with no None |
| Properties.SchemaOfComplete | osm_bz2_to_parquet.py:65-66 | a non-empty chunk of records without None has the all-string schema |
| Properties.RecordsComplete | osm_bz2_to_parquet.py:19-57 | when every changeset is complete, every record is without None |
| Properties.CompleteRunSameSchema | osm_bz2_to_parquet.py:63-98 | when every changeset is complete, every table has the all-string schema, so the run ends normally for every chunk size |
| Properties.LastTagWinsExample | osm_bz2_to_parquet.py:44-54 | with two `created_by` tags around a non-`tag` child, the second tag's value wins and the other optional columns stay "" |
| Properties.MissingFirstAlsoAborts | osm_bz2_to_parquet.py:63-79 | when the first one-row table lacks `min_lat` and the second has it, the tables do not share one schema either |
| Properties.ChunkSizeDecidesOutcome | osm_bz2_to_parquet.py:63-79 | the same two changesets share one schema with chunk size 2 but not with chunk size 1, so the same input succeeds or aborts depending on the chunk size |

## Left out

- bz2 decompression and file opening (line 17) are byte-stream I/O. The model starts from the parsed elements.
- `ET.iterparse` tokenising (line 19) is left out. So is malformed XML, which raises a parse error there. The input is a given finite sequence of "end"-event elements.
- `element.clear()` (line 60) only releases memory. It changes nothing the model observes, because an element is processed before it is cleared.
- `pd.DataFrame` and `pa.Table.from_pandas` (lines 65-66 and 94-95) are modelled only through the schema they infer. That is fourteen columns in key order, each string-typed or null-typed. pandas and pyarrow metadata are not modelled, and neither is `remove_metadata()` on the schema.
- The Parquet file's bytes are not modelled. The writer records its schema, whether it is closed, and the tables it accepted.
- The `first_chunk` flag (lines 12 and 72-79) is left out. Its two branches make the same call.
- The `print` calls (lines 88 and 93) are not modelled as text. The model keeps the sequence of counts that line 88 reports, and leaves out line 93's message about the final chunk size.
- The command-line entry point (lines 104-112) is argument parsing.
- The `tglocind_bot` files are not part of this model. They are coordinate-conversion and raster-sampling utilities, unrelated to the converter.
- Exceptions other than the schema mismatch are out of scope: I/O errors and parse errors.
- A run that aborts is modelled as ending at once, with `close()` not called. Exception propagation itself is not modelled.
- The finaliser of pyarrow's `ParquetWriter`, which closes a writer that is still open when the object is dropped, is not modelled. `Writer.closed` records only the explicit `close()` call at line 101.
- Integer width is not an issue: `chunk_size` and the row counter are Python integers, which are unbounded like Dafny's `int`.
- Parquet.ColumnTypeOf: pyarrow type inference is modelled only for what can occur here, a column of strings and Nones. A column is string-typed when it holds at least one string, and null-typed otherwise.
