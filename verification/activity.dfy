/** The log side of the run up to the dimensions (`process_log_data`): the
    page filter, the `users` projection, the derived timestamp columns and
    the `time` table. */
module Activity {
  import opened Values
  import opened Records
  import opened Seqs

  const NextSong: string := "NextSong"
  const Home: string := "Home"

  /** `page == 'NextSong'` on a log record. A NULL `page` makes the
      comparison NULL, so such a record never passes. */
  predicate IsNextSongPage(a: ActivityRecord)
  {
    a.page == NonNull(NextSong)
  }

  /** The filter condition `page == 'NextSong' | page == 'Home'`. A NULL
      `page` makes both comparisons NULL, so the row is dropped. */
  function IsActivityPage(a: ActivityRecord): (pass: bool)
    ensures pass <==> a.page.NonNull? && a.page.value in {NextSong, Home}
  {
    IsNextSongPage(a) || a.page == NonNull(Home)
  }

  /** The log records the rest of the run works on: the NextSong and Home
      events, in order, every duplicate kept. */
  function FilterActivity(logs: seq<ActivityRecord>): (kept: seq<ActivityRecord>)
    ensures |kept| <= |logs|
    ensures forall i :: 0 <= i < |kept| ==>
      kept[i].page == NonNull(NextSong) || kept[i].page == NonNull(Home)
  {
    Filter(IsActivityPage, logs)
  }

  /** The filtered log is a subsequence of the log holding exactly the
      NextSong and Home events, each as often as it occurs in the log. */
  lemma FilterActivityContents(logs: seq<ActivityRecord>)
    ensures IsSubsequence(FilterActivity(logs), logs)
    ensures forall a :: a in FilterActivity(logs) ==> a in logs && IsActivityPage(a)
    ensures forall a :: a in logs && IsActivityPage(a) ==> a in FilterActivity(logs)
    ensures forall a ::
      multiset(FilterActivity(logs))[a] == (if IsActivityPage(a) then multiset(logs)[a] else 0)
  {
    FilterIsSubsequence(IsActivityPage, logs);
    FilterMembers(IsActivityPage, logs);
    FilterCounts(IsActivityPage, logs);
  }

  function UserOf(a: ActivityRecord): UserRow
  {
    UserRow(a.userId, a.firstName, a.lastName, a.gender, a.level)
  }

  /** The `users` table: one row per filtered record, in order, each holding
      that record's five user columns; a user seen twice has two rows. */
  function ProjectUsers(kept: seq<ActivityRecord>): (users: seq<UserRow>)
    ensures |users| == |kept|
    ensures forall i :: 0 <= i < |kept| ==>
      && users[i].userId == kept[i].userId
      && users[i].firstName == kept[i].firstName
      && users[i].lastName == kept[i].lastName
      && users[i].gender == kept[i].gender
      && users[i].level == kept[i].level
  {
    seq(|kept|, i requires 0 <= i < |kept| => UserOf(kept[i]))
  }

  /** Every `users` row comes from a NextSong or Home event of the log. */
  lemma UsersComeFromActivityPages(logs: seq<ActivityRecord>)
    ensures forall u :: u in ProjectUsers(FilterActivity(logs)) ==>
      exists a :: a in logs && IsActivityPage(a) && u == UserOf(a)
  {
    var kept := FilterActivity(logs);
    FilterMembers(IsActivityPage, logs);
    forall u | u in ProjectUsers(kept)
      ensures exists a :: a in logs && IsActivityPage(a) && u == UserOf(a)
    {
      var i :| 0 <= i < |kept| && ProjectUsers(kept)[i] == u;
      assert kept[i] in kept;
    }
  }

  /** The log records whose user columns are those of `u`. */
  function UserIs(u: UserRow): ActivityRecord -> bool
  {
    a => UserOf(a) == u
  }

  /** No deduplication: the `users` rows equal to `u` are exactly as many as
      the filtered records carrying those user columns, so a user seen on
      several events has several rows. */
  lemma {:induction false} UsersKeepDuplicates(kept: seq<ActivityRecord>, u: UserRow)
    ensures multiset(ProjectUsers(kept))[u] == |Filter(UserIs(u), kept)|
    decreases |kept|
  {
    if |kept| != 0 {
      UsersKeepDuplicates(kept[1..], u);
      assert ProjectUsers(kept) == [UserOf(kept[0])] + ProjectUsers(kept[1..]);
    }
  }

  /** A log record whose `ts` the conversion accepts: not NULL, and within
      the clock's range. */
  predicate Readable(a: ActivityRecord, clock: Clock)
  {
    a.ts.NonNull? && clock(a.ts.value).InRange?
  }

  /** The `timestamp` column attached to
      each filtered record. The conversion is a Python UDF on `ts`: it
      raises on a NULL `ts` and on a `ts` out of the clock's range, and so
      fails the run; the error reported is that of the first such record. */
  function WithTimestamp(kept: seq<ActivityRecord>, clock: Clock): (r: Result<seq<Stamped>>)
    ensures r.Err? <==> exists i :: 0 <= i < |kept| && !Readable(kept[i], clock)
    ensures r == Err(NullTimestamp) ==> exists i :: 0 <= i < |kept| && kept[i].ts == Null
    ensures r == Err(TimestampOutOfRange) ==> exists i :: 0 <= i < |kept| && kept[i].ts != Null && !Readable(kept[i], clock)
    ensures r.Ok? ==> |r.value| == |kept|
    ensures r.Ok? ==> forall i :: 0 <= i < |kept| ==>
      r.value[i].rec == kept[i] && Readable(kept[i], clock) && r.value[i].moment == clock(kept[i].ts.value).moment
    decreases |kept|
  {
    if |kept| == 0 then Ok([])
    else if kept[0].ts.Null? then Err(NullTimestamp)
    else if clock(kept[0].ts.value).OutOfRange? then Err(TimestampOutOfRange)
    else
      match WithTimestamp(kept[1..], clock)
      case Err(e) =>
        assert exists i :: 0 <= i < |kept[1..]| && kept[1..][i] == kept[i + 1] && !Readable(kept[i + 1], clock);
        Err(e)
      case Ok(rest) => Ok([Stamped(kept[0], clock(kept[0].ts.value).moment)] + rest)
  }

  function TimeOf(n: Numbered<Stamped>): TimeRow
  {
    var m := n.item.moment;
    TimeRow(n.id, m.timestamp, m.hour, m.day, m.week, m.month, m.year, m.weekday)
  }

  /** A `time` row holds the calendar columns of `m`. */
  predicate TimeRowAt(row: TimeRow, m: Moment)
  {
    && row.timestamp == m.timestamp && row.hour == m.hour && row.day == m.day
    && row.week == m.week && row.month == m.month && row.year == m.year && row.weekday == m.weekday
  }

  /** The `time` table: one row per stamped record, in order, carrying that
      record's timestamp and calendar parts, under surrogate ids drawn from
      `next` on that are pairwise distinct. */
  function TimeTable(stamped: seq<Stamped>, next: nat): (rows: seq<TimeRow>)
    ensures |rows| == |stamped|
    ensures forall i :: 0 <= i < |rows| ==> TimeRowAt(rows[i], stamped[i].moment)
    ensures forall i :: 0 <= i < |rows| ==> next <= rows[i].id < next + |rows|
    ensures forall i, j :: 0 <= i < j < |rows| ==> rows[i].id != rows[j].id
  {
    var numbered := Number(stamped, next);
    seq(|numbered|, i requires 0 <= i < |numbered| => TimeOf(numbered[i]))
  }
}
