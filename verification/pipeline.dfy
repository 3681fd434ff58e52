/** The two processing steps of a run, with the reads and Parquet writes
    removed: each takes its input records and returns the tables it would
    write. */
module Pipeline {
  import opened Values
  import opened Records
  import opened Seqs
  import opened Catalog
  import opened Activity
  import opened Facts

  datatype SongTables = SongTables(songs: seq<SongRow>, artists: seq<ArtistRow>)

  /** `process_song_data`: the `songs` and `artists` tables, one row each per
      catalog record; together they hold the catalog without loss. */
  function ProcessSongData(catalog: seq<CatalogRecord>): (t: SongTables)
    ensures |t.songs| == |catalog| && |t.artists| == |catalog|
    ensures Recombine(t.songs, t.artists) == catalog
    ensures forall i :: 0 <= i < |catalog| ==> t.artists[i].artist_id == catalog[i].artist_id
  {
    ProjectionsAreLossless(catalog);
    SongTables(ProjectSongs(catalog), ProjectArtists(catalog))
  }

  datatype LogTables = LogTables(users: seq<UserRow>, time: seq<TimeRow>, songplays: seq<SongplayRow>)

  /** `process_log_data` on the log and the catalog, with the timestamp
      conversion `clock` and the surrogate-id counter `next` supplied by the
      caller. The run fails when a NextSong or Home record has no `ts` or
      one the conversion rejects. Otherwise `users` and `time` have one row
      per such record (Home events included), in order, `time` ids are
      distinct, and `songplays` ids are distinct; in the model, where one
      counter serves both tables, they are also above every `time` id. */
  function ProcessLogData(logs: seq<ActivityRecord>, catalog: seq<CatalogRecord>, clock: Clock, next: nat)
    : (r: Result<LogTables>)
    ensures r.Err? <==> exists a :: a in logs && IsActivityPage(a) && !Readable(a, clock)
    ensures r.Ok? ==> TablesOf(FilterActivity(logs), r.value, clock)
  {
    var kept := FilterActivity(logs);
    assert (exists a :: a in logs && IsActivityPage(a) && !Readable(a, clock))
       <==> (exists i :: 0 <= i < |kept| && !Readable(kept[i], clock)) by {
      FilterMembers(IsActivityPage, logs);
      if exists a :: a in logs && IsActivityPage(a) && !Readable(a, clock) {
        var a :| a in logs && IsActivityPage(a) && !Readable(a, clock);
        assert a in kept;
        var i :| 0 <= i < |kept| && kept[i] == a;
      }
      if exists i :: 0 <= i < |kept| && !Readable(kept[i], clock) {
        var i :| 0 <= i < |kept| && !Readable(kept[i], clock);
        assert kept[i] in kept;
      }
    }
    BuiltTables(kept, catalog, clock, next);
    BuildLogTables(kept, catalog, clock, next)
  }

  /** The tables derived from the filtered log `kept`: `users` straight
      from it, then `time` and `songplays` once every record has been
      given its timestamp columns. What they hold is `BuiltTables`. */
  function BuildLogTables(kept: seq<ActivityRecord>, catalog: seq<CatalogRecord>, clock: Clock, next: nat)
    : Result<LogTables>
  {
    match WithTimestamp(kept, clock)
    case Err(e) => Err(e)
    case Ok(stamped) => Ok(TablesFrom(kept, stamped, catalog, next))
  }

  /** `users` from the filtered log; `time`, then `songplays`, from its
      stamped records, the ids continuing from one table to the next. */
  function TablesFrom(kept: seq<ActivityRecord>, stamped: seq<Stamped>, catalog: seq<CatalogRecord>, next: nat)
    : LogTables
  {
    LogTables(ProjectUsers(kept), TimeTable(stamped, next), Songplays(stamped, catalog, next + |stamped|))
  }

  /** What a successful run holds, given the filtered log `kept`: one
      `users` row and one `time` row per record, in order, each holding that
      record's columns, `time` ids distinct, `songplays` ids distinct and,
      the counter being shared in the model, above every `time` id. */
  predicate TablesOf(kept: seq<ActivityRecord>, t: LogTables, clock: Clock)
  {
    && |t.users| == |kept| && |t.time| == |kept|
    && (forall i :: 0 <= i < |t.users| ==> t.users[i] == UserOf(kept[i]))
    && (forall i :: 0 <= i < |t.time| ==>
          Readable(kept[i], clock) && TimeRowAt(t.time[i], clock(kept[i].ts.value).moment))
    && (forall i, j :: 0 <= i < j < |t.time| ==> t.time[i].id != t.time[j].id)
    && (forall i, j :: 0 <= i < j < |t.songplays| ==>
          t.songplays[i].songplay_id != t.songplays[j].songplay_id)
    && (forall i, j :: 0 <= i < |t.time| && 0 <= j < |t.songplays| ==>
          t.time[i].id < t.songplays[j].songplay_id)
  }

  /** The promises of `ProcessLogData`, stated over the already-filtered
      log. */
  lemma BuiltTables(kept: seq<ActivityRecord>, catalog: seq<CatalogRecord>, clock: Clock, next: nat)
    ensures var r := BuildLogTables(kept, catalog, clock, next);
      && (r.Err? <==> exists i :: 0 <= i < |kept| && !Readable(kept[i], clock))
      && (r.Ok? ==> TablesOf(kept, r.value, clock))
  {
  }

  /** The `songplays` row built from the NextSong event `a` with a readable
      `ts` and the catalog record `c`. */
  function PlayOf(a: ActivityRecord, c: CatalogRecord, clock: Clock): Play
    requires Readable(a, clock)
  {
    Play(Stamped(a, clock(a.ts.value).moment), c)
  }

  /** `row` was produced from a NextSong event of `logs` with a readable
      `ts` and a catalog record matching it on all four join columns: its
      song and artist ids are the catalog record's, its timestamp is that
      of the event's `ts`, and its other columns are the event's. */
  ghost predicate PlayedFrom(row: SongplayRow, logs: seq<ActivityRecord>, catalog: seq<CatalogRecord>, clock: Clock)
  {
    exists a, c :: && a in logs && c in catalog
                   && IsNextSongPage(a) && JoinKeysMatch(a, c) && Readable(a, clock)
                   && RowFrom(row, PlayOf(a, c, clock))
  }

  /** Some row of `rows` holds the columns of event `a` (whose `ts` is
      readable) and catalog record `c`. */
  ghost predicate PlayRecorded(rows: seq<SongplayRow>, a: ActivityRecord, c: CatalogRecord, clock: Clock)
  {
    Readable(a, clock) && exists row :: row in rows && RowFrom(row, PlayOf(a, c, clock))
  }

  /** Every row of `rows` satisfies `PlayedFrom`. */
  ghost predicate AllPlayedFrom(rows: seq<SongplayRow>, logs: seq<ActivityRecord>, catalog: seq<CatalogRecord>, clock: Clock)
  {
    forall row :: row in rows ==> PlayedFrom(row, logs, catalog, clock)
  }

  /** Every `songplays` row of a run comes from a NextSong event and a
      catalog record it matches. */
  lemma SongplaysOfRun(logs: seq<ActivityRecord>, catalog: seq<CatalogRecord>, clock: Clock, next: nat)
    ensures var r := ProcessLogData(logs, catalog, clock, next);
      r.Ok? ==> forall row :: row in r.value.songplays ==> PlayedFrom(row, logs, catalog, clock)
  {
    var r := ProcessLogData(logs, catalog, clock, next);
    var kept := FilterActivity(logs);
    assert r == BuildLogTables(kept, catalog, clock, next);
    if r.Ok? {
      SongplaysOfBuild(kept, catalog, clock, next);
      FilterMembers(IsActivityPage, logs);
      forall row | row in r.value.songplays
        ensures PlayedFrom(row, logs, catalog, clock)
      {
        PlayedFromSubset(row, kept, logs, catalog, clock);
      }
    }
  }

  lemma PlayedFromSubset(row: SongplayRow, kept: seq<ActivityRecord>, logs: seq<ActivityRecord>,
                         catalog: seq<CatalogRecord>, clock: Clock)
    requires forall a :: a in kept ==> a in logs
    requires PlayedFrom(row, kept, catalog, clock)
    ensures PlayedFrom(row, logs, catalog, clock)
  {
    var a, c :| && a in kept && c in catalog
                && IsNextSongPage(a) && JoinKeysMatch(a, c) && Readable(a, clock)
                && RowFrom(row, PlayOf(a, c, clock));
    assert a in logs;
  }

  /** `SongplaysOfRun` for the tables built from the filtered log. */
  lemma SongplaysOfBuild(kept: seq<ActivityRecord>, catalog: seq<CatalogRecord>, clock: Clock, next: nat)
    ensures var r := BuildLogTables(kept, catalog, clock, next);
      r.Ok? ==> AllPlayedFrom(r.value.songplays, kept, catalog, clock)
  {
    var w := WithTimestamp(kept, clock);
    if w.Ok? {
      BuildOk(kept, catalog, clock, next, w.value);
      TablesFromSongplays(kept, w.value, catalog, next);
      SongplaysFromStamped(w.value, kept, catalog, clock, next + |w.value|);
    } else {
      BuildErr(kept, catalog, clock, next);
    }
  }

  lemma BuildOk(kept: seq<ActivityRecord>, catalog: seq<CatalogRecord>, clock: Clock, next: nat, stamped: seq<Stamped>)
    requires WithTimestamp(kept, clock) == Ok(stamped)
    ensures BuildLogTables(kept, catalog, clock, next) == Ok(TablesFrom(kept, stamped, catalog, next))
  {
  }

  lemma TablesFromSongplays(kept: seq<ActivityRecord>, stamped: seq<Stamped>, catalog: seq<CatalogRecord>, next: nat)
    ensures TablesFrom(kept, stamped, catalog, next).songplays == Songplays(stamped, catalog, next + |stamped|)
  {
  }

  lemma BuildErr(kept: seq<ActivityRecord>, catalog: seq<CatalogRecord>, clock: Clock, next: nat)
    requires WithTimestamp(kept, clock).Err?
    ensures BuildLogTables(kept, catalog, clock, next).Err?
  {
  }

  /** `SongplaysOfBuild` once every filtered record has its timestamp. */
  lemma SongplaysFromStamped(stamped: seq<Stamped>, kept: seq<ActivityRecord>,
                             catalog: seq<CatalogRecord>, clock: Clock, next: nat)
    requires |stamped| == |kept|
    requires forall i :: 0 <= i < |kept| ==>
      stamped[i].rec == kept[i] && Readable(kept[i], clock) && stamped[i].moment == clock(kept[i].ts.value).moment
    ensures AllPlayedFrom(Songplays(stamped, catalog, next), kept, catalog, clock)
  {
    SongplayRowsComeFromMatches(stamped, catalog, next);
    forall row | row in Songplays(stamped, catalog, next)
      ensures PlayedFrom(row, kept, catalog, clock)
    {
      MatchPlayedFrom(row, stamped, kept, catalog, clock);
    }
  }

  lemma MatchPlayedFrom(row: SongplayRow, stamped: seq<Stamped>, kept: seq<ActivityRecord>,
                        catalog: seq<CatalogRecord>, clock: Clock)
    requires |stamped| == |kept|
    requires forall i :: 0 <= i < |kept| ==>
      stamped[i].rec == kept[i] && Readable(kept[i], clock) && stamped[i].moment == clock(kept[i].ts.value).moment
    requires FromNextSongMatch(row, stamped, catalog)
    ensures PlayedFrom(row, kept, catalog, clock)
  {
    var p: Play :| && p.act in stamped && p.song in catalog
                   && IsNextSong(p.act) && JoinKeysMatch(p.act.rec, p.song)
                   && RowFrom(row, p);
    var i :| 0 <= i < |stamped| && stamped[i] == p.act;
    assert p.act == PlayOf(kept[i], p.song, clock).act;
    assert kept[i] in kept;
  }

  /** A log event whose page is neither NextSong nor Home contributes no row
      to any table: adding it anywhere in the log changes nothing, not even
      the surrogate ids. */
  lemma OtherPagesChangeNothing(before: seq<ActivityRecord>, x: ActivityRecord, after: seq<ActivityRecord>,
                                catalog: seq<CatalogRecord>, clock: Clock, next: nat)
    requires x.page != NonNull(NextSong) && x.page != NonNull(Home)
    ensures ProcessLogData(before + [x] + after, catalog, clock, next)
         == ProcessLogData(before + after, catalog, clock, next)
  {
    FilterConcat(IsActivityPage, before + [x], after);
    FilterConcat(IsActivityPage, before, [x]);
    FilterConcat(IsActivityPage, before, after);
    assert Filter(IsActivityPage, [x]) == [];
    var kept := FilterActivity(before + after);
    assert FilterActivity(before + [x] + after) == kept;
    assert ProcessLogData(before + [x] + after, catalog, clock, next) == BuildLogTables(kept, catalog, clock, next);
  }

  /** Conversely, in a run that succeeds, every NextSong event of the log
      and every catalog record it matches on the four join columns give a
      `songplays` row holding their columns. */
  lemma EveryMatchPlayedInRun(logs: seq<ActivityRecord>, catalog: seq<CatalogRecord>, clock: Clock, next: nat,
                              a: ActivityRecord, c: CatalogRecord)
    requires a in logs && c in catalog && IsNextSongPage(a) && JoinKeysMatch(a, c)
    ensures var r := ProcessLogData(logs, catalog, clock, next);
      r.Ok? ==> PlayRecorded(r.value.songplays, a, c, clock)
  {
    var kept := FilterActivity(logs);
    FilterMembers(IsActivityPage, logs);
    assert a in kept;
    assert ProcessLogData(logs, catalog, clock, next) == BuildLogTables(kept, catalog, clock, next);
    EveryMatchPlayedInBuild(kept, catalog, clock, next, a, c);
  }

  /** `EveryMatchPlayedInRun` for the tables built from the filtered log. */
  lemma EveryMatchPlayedInBuild(kept: seq<ActivityRecord>, catalog: seq<CatalogRecord>, clock: Clock, next: nat,
                                a: ActivityRecord, c: CatalogRecord)
    requires a in kept && c in catalog && IsNextSongPage(a) && JoinKeysMatch(a, c)
    ensures var r := BuildLogTables(kept, catalog, clock, next);
      r.Ok? ==> PlayRecorded(r.value.songplays, a, c, clock)
  {
    var w := WithTimestamp(kept, clock);
    if w.Ok? {
      var rows := Songplays(w.value, catalog, next + |w.value|);
      assert BuildLogTables(kept, catalog, clock, next) == Ok(TablesFrom(kept, w.value, catalog, next)) by {
        BuildOk(kept, catalog, clock, next, w.value);
      }
      assert TablesFrom(kept, w.value, catalog, next).songplays == rows by {
        TablesFromSongplays(kept, w.value, catalog, next);
      }
      assert PlayRecorded(rows, a, c, clock) by {
        MatchPlayedInStamped(w.value, kept, catalog, clock, next + |w.value|, a, c);
      }
    } else {
      BuildErr(kept, catalog, clock, next);
    }
  }

  /** `EveryMatchPlayedInBuild` once every filtered record has its
      timestamp. */
  lemma MatchPlayedInStamped(stamped: seq<Stamped>, kept: seq<ActivityRecord>,
                             catalog: seq<CatalogRecord>, clock: Clock, next: nat,
                             a: ActivityRecord, c: CatalogRecord)
    requires |stamped| == |kept|
    requires forall i :: 0 <= i < |kept| ==>
      stamped[i].rec == kept[i] && Readable(kept[i], clock) && stamped[i].moment == clock(kept[i].ts.value).moment
    requires a in kept && c in catalog && IsNextSongPage(a) && JoinKeysMatch(a, c)
    ensures PlayRecorded(Songplays(stamped, catalog, next), a, c, clock)
  {
    var i :| 0 <= i < |kept| && kept[i] == a;
    var s := stamped[i];
    assert s == PlayOf(a, c, clock).act;
    assert s in stamped;
    var rows := Songplays(stamped, catalog, next);
    EveryMatchGivesSongplay(stamped, catalog, next, s, c);
    var k :| 0 <= k < |rows| && RowFrom(rows[k], Play(s, c));
    assert rows[k] in rows;
  }
}
