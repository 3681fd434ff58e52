# Sparkify data-lake ETL: the relational core

This project models the transformation logic of a batch ETL job (`etl.py`).
The job reads a song catalog and a listening-activity log as JSON and writes
a star schema: the `songs`, `artists`, `users` and `time` dimension tables and
the `songplays` fact table. The model keeps only the relational part. Every
DataFrame is a `seq` of immutable records, and every `select`, `filter` and
`join` is a pure function with a contract. The Spark session, the reads and
the Parquet writes are removed.

Modules, one file each:

- `Values` (`values.dfy`): nullable column values. Also SQL equality as a
  filter or join condition sees it, where NULL matches nothing. Also the
  run's `Result`.
- `Seqs` (`seqs.dfy`): the DataFrame filter, the subsequence order it keeps,
  and surrogate-id numbering (`monotonically_increasing_id` with an explicit
  counter).
- `Records` (`records.dfy`): the two input record types and the five row
  types. They use the column names of the data.
- `Catalog` (`catalog.dfy`): `process_song_data`, i.e. the `songs` and
  `artists` projections.
- `Activity` (`activity.dfy`): the page filter, the `users` projection, the
  timestamp columns and the `time` table.
- `Facts` (`songplays.dfy`): the four-column inner join, the NextSong
  restriction and the `songplays` ids.
- `Pipeline` (`pipeline.dfy`): the two processing steps as whole functions.
- `Scenarios` (`scenarios.dfy`): concrete runs. These are a matched play, a
  length mismatch, a Home event, a missing timestamp and one out of the
  calendar's range.

Modelling choices:

- Every column is `Nullable<T>`, because `spark.read.json` fills a missing
  field with NULL. The comparisons in `filter`, `join` and `where` follow
  three-valued logic: a row is kept only when the condition is TRUE. So a
  NULL `page` passes neither page test. A NULL in any of the four join
  columns also matches nothing, not even another NULL.
- `length` and `duration` (and the coordinates) are `real`. Only exact
  equality matters to the join.
- The timestamp conversion is a caller-supplied `Clock` (`int -> Reading`).
  It covers the Python UDF, the local time zone and Spark's calendar
  functions. It is partial: a `ts` whose `ts / 1000` seconds fall outside the
  calendar's range gives `OutOfRange`, as `datetime.fromtimestamp` raises
  there. A NULL `ts` also makes the UDF raise. Either failure fails the run,
  and the model returns `Err(NullTimestamp)` or `Err(TimestampOutOfRange)`
  for the first failing record.
- Surrogate ids come from a counter `next` passed in by the caller. The
  `time` rows take `next`, `next + 1`, and so on. The joined rows then take
  the ids that follow. In the source the id column of `songplays` is computed
  before `.where(page == 'NextSong')`, and Spark does not push a filter below
  a nondeterministic column. So joined Home rows use up ids and are then
  dropped. The kept ids are increasing and distinct but can have gaps, and
  the model reproduces this.

Consequences of the code as written:

- The `time` table has one row per NextSong **or Home** event, because the
  filter at etl.py:54 is never narrowed before line 71. `Scenarios.HomeEvent`
  shows a Home event getting a `time` row.
- The `songplays` join at etl.py:80 is an inner join. Unmatched plays give
  no row, and there are no NULL-id rows.
- A field missing from a JSON object becomes NULL; the record is kept.
- `main` (etl.py:86-92) calls only `process_log_data`; the call of
  `process_song_data` at etl.py:91 is commented out, so running the script
  writes no `songs` or `artists` table. `Pipeline.ProcessSongData` models
  the function itself.

## Model

| member | source | states |
|---|---|---|
| Values.SqlEquals | etl.py:80 | A column comparison is TRUE exactly when both values are equal and not NULL; NULL = NULL fails |
| Seqs.Filter | etl.py:54 | Every kept row satisfies the condition, and there are never more rows out than in |
| Seqs.FilterIsSubsequence | etl.py:54 | The filter output is a subsequence of its input (rows deleted, order kept) |
| Seqs.FilterMembers | etl.py:54 | A row is in the output exactly when it is in the input and passes the condition |
| Seqs.FilterCounts | etl.py:54 | A passing row keeps its multiplicity and a failing row has none: no dedup, nothing invented |
| Seqs.FilterConcat | etl.py:54 | Filtering a concatenation equals concatenating the filters, so partitions can be filtered independently |
| Seqs.FilterIdempotent | etl.py:54 | Filtering twice with the same condition equals filtering once |
| Seqs.Number | etl.py:71 | Surrogate ids are next, next+1, ... in row order, and the rows themselves are unchanged |
| Seqs.FilterKeepsIdsIncreasing | etl.py:80 | Ids assigned before a filter are still strictly increasing, hence distinct, after it |
| Catalog.ProjectSongs | etl.py:34 | One songs row per catalog record, in order, holding exactly song_id, title, artist_id, year, duration of that record |
| Catalog.ProjectArtists | etl.py:40 | One artists row per catalog record, in order, holding exactly the five artist columns of that record |
| Catalog.ProjectionsAreLossless | etl.py:34-40 | Zipping the songs and artists tables rebuilds the catalog exactly, and the two agree on artist_id |
| Catalog.ProjectionsSplit | etl.py:34-40 | Both projections commute with concatenation (partition-independent) |
| Catalog.ArtistsKeepDuplicates | etl.py:40 | No deduplication: the artists rows equal to a given row are exactly as many as the catalog records carrying those artist columns |
| Activity.IsActivityPage | etl.py:54 | The page condition holds exactly when page is non-NULL and is NextSong or Home; a NULL page never passes |
| Activity.FilterActivity | etl.py:54 | Every kept log record has page NextSong or Home, and there are never more than the log holds |
| Activity.FilterActivityContents | etl.py:54 | The filtered log is a subsequence of the log holding exactly the NextSong/Home records, each with its full multiplicity |
| Activity.ProjectUsers | etl.py:57 | One users row per filtered record, in order, with userId, firstName, lastName, gender, level copied |
| Activity.UsersComeFromActivityPages | etl.py:54-57 | Every users row is the user columns of some NextSong or Home record of the log |
| Activity.UsersKeepDuplicates | etl.py:57 | No deduplication: the users rows equal to a given row are exactly as many as the filtered records carrying those user columns |
| Activity.WithTimestamp | etl.py:63-68 | Fails exactly when some filtered record has a NULL ts or one the conversion rejects, the error naming such a record's failure; otherwise pairs each record, in order, with the moment its ts converts to |
| Activity.TimeTable | etl.py:71 | One time row per stamped record with its timestamp and calendar parts; ids lie in [next, next+n) and are pairwise distinct |
| Facts.JoinKeysMatch | etl.py:80 | The join condition holds exactly when song/title, length/duration, artist/artist_name and location/artist_location are each equal and non-NULL |
| Facts.PlaysOf | etl.py:80 | Every joined row of one activity record pairs it with a catalog record of the input that matches on all four columns |
| Facts.PlaysOfCounts | etl.py:80 | An activity record is paired with each matching catalog record as many times as that record occurs, and with nothing else |
| Facts.PlaysOfUnmatched | etl.py:80 | An activity record with no matching catalog record has no joined rows |
| Facts.Join | etl.py:80 | Every joined row pairs an input activity record with an input catalog record that match on song/title, length/duration, artist/artist_name, location/artist_location |
| Facts.JoinMembers | etl.py:80 | Every matching (activity, catalog) pair of the inputs appears in the join |
| Facts.JoinCounts | etl.py:80 | The join is the bag inner join: a matching pair occurs (count in log) x (count in catalog) times, a non-matching pair never |
| Facts.JoinConcat | etl.py:80 | The join commutes with concatenation of the activity side |
| Facts.Songplays | etl.py:80 | songplay_ids are strictly increasing (so distinct) and drawn from [next, next + size of the join) |
| Facts.NumberAndRestrict | etl.py:80 | Numbering the joined rows and then keeping the NextSong ones gives at most as many rows, with strictly increasing ids in [next, next + number of joined rows) |
| Facts.RestrictAfterJoin | etl.py:80 | Restricting joined rows to NextSong equals joining only the NextSong records |
| Facts.SongplaysAreNextSongJoin | etl.py:80 | songplays has exactly one row per joined (NextSong record, catalog record) pair, in order, with song_id/artist_id from the catalog and timestamp, userId, level, sessionId, location, userAgent from the event |
| Facts.SongplayRowsComeFromMatches | etl.py:80 | Every songplays row comes from a NextSong record and a catalog record matching it on all four columns |
| Facts.EveryMatchGivesSongplay | etl.py:80 | Every NextSong record with a matching catalog record yields a songplays row for that pair |
| Facts.SongplayCount | etl.py:80 | The number of songplays rows is the number of matching NextSong pairs counted with multiplicity, so k matching catalog records give k rows |
| Facts.UnmatchedPlayAddsNothing | etl.py:80 | Adding an activity record that matches no catalog record leaves songplays unchanged, ids included |
| Pipeline.ProcessSongData | etl.py:24-43 | songs and artists each have one row per catalog record and together rebuild the catalog; each artists row carries its record's artist_id |
| Pipeline.ProcessLogData | etl.py:46-83 | Fails iff some NextSong/Home record has a NULL or unconvertible ts; otherwise users has, per such record and in order, its five user columns, time has per such record its converted moment, and time ids and songplay ids are each distinct |
| Pipeline.SongplaysOfRun | etl.py:54-80 | Every songplays row of a run carries the ids of a catalog record and the columns and timestamp of a NextSong event that matches it |
| Pipeline.EveryMatchPlayedInRun | etl.py:54-80 | In a run that succeeds, every NextSong event of the log and every catalog record matching it on the four columns give a songplays row with their columns |
| Pipeline.OtherPagesChangeNothing | etl.py:54-80 | A log event whose page is neither NextSong nor Home changes no output table, ids included |
| Scenarios.TimestampOutOfRangeFails | etl.py:63-74 | A NextSong event whose ts the conversion rejects fails the run with TimestampOutOfRange |
| Scenarios.MatchedPlay | etl.py:80 | "Fix You"/296.0/Coldplay/London played by user 7 gives exactly one songplays row with the catalog's song_id and artist_id |
| Scenarios.MismatchedLength | etl.py:80 | The same play with length 300.0 gives no songplays row but still a time row |
| Scenarios.HomeEvent | etl.py:54-80 | A Home event gets one users row and one time row but no songplays row, even when its song columns match |
| Scenarios.MissingTimestamp | etl.py:63-74 | A NextSong event with NULL ts fails the run |

## Left out

- Spark session creation, `spark.read.json`, `df.take` and `print` (etl.py:16-31, 48-51, 77). These are engine and I/O plumbing, and the inputs are given as sequences of records.
- The JSON schema inference and glob patterns. A field absent from an object is modelled as NULL, and extra fields are dropped.
- Parquet writes (etl.py:37, 43, 60, 74, 83). These are external side effects. When the run fails on a NULL or out-of-range `ts`, the `users` table has already been written at that point. The model returns only the error.
- Credential loading from `dl.cfg` into the environment (etl.py:9-13). This is configuration.
- `main` (etl.py:86-96). It fixes the input and output paths and calls `process_log_data` only.
- Calendar arithmetic (etl.py:63-71). `datetime.fromtimestamp(t/1000)` in the local time zone, the `strftime` format and Spark's `hour`, `dayofmonth`, `weekofyear`, `month`, `year` and `dayofweek` are one opaque, partial `Clock` function of `ts`; which `ts` values it rejects (the range of `datetime`, platform limits of `localtime`) is the caller's choice. No property of calendar fields is claimed, including the minute-truncation round trip. The unused `datetime` column (etl.py:67-68) is not materialised.
- Floating point. Doubles are exact reals, so NaN (which Spark treats as equal to itself) and signed zero are not modelled.
- The concrete `monotonically_increasing_id` scheme (partition bits in the upper 31 bits). Only uniqueness within a table is modelled, through the injected counter.
- Cross-table id order: the model threads one counter through `time` and then `songplays`. So in the model `songplays` ids also exceed `time` ids. Spark restarts each DataFrame's ids, so the source does not promise this cross-table order.
- Row order. Spark gives no ordering guarantee. The model fixes one: log order, then catalog order within the join. The multiplicity lemmas (`Seqs.FilterCounts`, `Facts.JoinCounts`, `Facts.SongplayCount`) state the order-free content.
- Which error a failing run reports when several records fail depends on Spark's evaluation order across partitions. The model reports the failure of the first failing record in log order; the contracts only promise that the reported failure is one some record has.
