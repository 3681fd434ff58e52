/** Small concrete runs: the matched play, the play whose length differs by
    a few seconds, a Home event, an event without a timestamp, and one whose
    timestamp the clock rejects. */
module Scenarios {
  import opened Values
  import opened Records
  import opened Seqs
  import opened Activity
  import opened Facts
  import opened Pipeline

  function FixYou(): CatalogRecord
  {
    CatalogRecord(NonNull("SOFIXYOU"), NonNull("Fix You"), NonNull("ARCOLDPLAY"), NonNull("Coldplay"),
                  NonNull("London"), Null, Null, NonNull(2005), NonNull(296.0))
  }

  /** A logged-in event of user "7" on `page` hearing `length` seconds of
      "Fix You" by Coldplay in London. */
  function Listen(page: string, length: real, ts: Nullable<int>): ActivityRecord
  {
    ActivityRecord(NonNull("7"), NonNull("Ann"), NonNull("Lee"), NonNull("F"), NonNull("free"), ts,
                   NonNull(page), NonNull("Fix You"), NonNull("Coldplay"), NonNull(length),
                   NonNull("London"), NonNull(42), NonNull("Mozilla"))
  }

  /** A NextSong event matching the one catalog record on title, length,
      artist and location gives exactly one `songplays` row, with the
      catalog's song and artist ids and the event's user. */
  lemma MatchedPlay(clock: Clock, next: nat)
    requires clock(1541105830796).InRange?
    ensures var r := ProcessLogData([Listen("NextSong", 296.0, NonNull(1541105830796))], [FixYou()], clock, next);
      && r.Ok?
      && |r.value.songplays| == 1
      && r.value.songplays[0].song_id == NonNull("SOFIXYOU")
      && r.value.songplays[0].artist_id == NonNull("ARCOLDPLAY")
      && r.value.songplays[0].userId == NonNull("7")
  {
    var a := Listen("NextSong", 296.0, NonNull(1541105830796));
    var s := Stamped(a, clock(1541105830796).moment);
    FilterAll(IsActivityPage, [a]);
    assert [a][1..] == [] && [s] + [] == [s];
    assert WithTimestamp([a], clock) == Ok([s]);
    assert PlaysOf(s, [FixYou()]) == [Play(s, FixYou())];
    assert Join([s], [FixYou()]) == [Play(s, FixYou())];
    var time := TimeTable([s], next);
    var numbered := Number([Play(s, FixYou())], next + |time|);
    assert numbered == [Numbered(next + 1, Play(s, FixYou()))];
    assert Filter(IsNumberedSongPlay, numbered) == numbered;
  }

  /** The same event with a length of 300.0 instead of 296.0 matches
      nothing, and the inner join drops it: no `songplays` row. */
  lemma MismatchedLength(clock: Clock, next: nat)
    requires clock(1541105830796).InRange?
    ensures var r := ProcessLogData([Listen("NextSong", 300.0, NonNull(1541105830796))], [FixYou()], clock, next);
      r.Ok? && |r.value.songplays| == 0 && |r.value.time| == 1
  {
    var a := Listen("NextSong", 300.0, NonNull(1541105830796));
    var s := Stamped(a, clock(1541105830796).moment);
    FilterAll(IsActivityPage, [a]);
    assert [a][1..] == [] && [s] + [] == [s];
    assert WithTimestamp([a], clock) == Ok([s]);
    assert !JoinKeysMatch(a, FixYou());
    assert Join([s], [FixYou()]) == [];
  }

  /** A Home event passes the page filter: it gets a `users` row and a
      `time` row, though never a `songplays` row, even when its song
      columns match the catalog. */
  lemma HomeEvent(clock: Clock, next: nat)
    requires clock(1541105830796).InRange?
    ensures var r := ProcessLogData([Listen("Home", 296.0, NonNull(1541105830796))], [FixYou()], clock, next);
      r.Ok? && |r.value.users| == 1 && |r.value.time| == 1 && |r.value.songplays| == 0
  {
    var a := Listen("Home", 296.0, NonNull(1541105830796));
    var s := Stamped(a, clock(1541105830796).moment);
    FilterAll(IsActivityPage, [a]);
    assert [a][1..] == [] && [s] + [] == [s];
    assert WithTimestamp([a], clock) == Ok([s]);
    assert Join([s], [FixYou()]) == [Play(s, FixYou())];
    var numbered := Number([Play(s, FixYou())], next + 1);
    FilterNone(IsNumberedSongPlay, numbered);
  }

  /** A NextSong event without `ts` fails the run. */
  lemma MissingTimestamp(clock: Clock, next: nat)
    ensures ProcessLogData([Listen("NextSong", 296.0, Null)], [FixYou()], clock, next) == Err(NullTimestamp)
  {
    FilterAll(IsActivityPage, [Listen("NextSong", 296.0, Null)]);
  }

  /** A NextSong event whose `ts` the conversion rejects (a year out of the
      calendar's range) also fails the run. */
  lemma TimestampOutOfRangeFails(clock: Clock, next: nat)
    requires clock(100000000000000000) == OutOfRange
    ensures ProcessLogData([Listen("NextSong", 296.0, NonNull(100000000000000000))], [FixYou()], clock, next)
         == Err(TimestampOutOfRange)
  {
    FilterAll(IsActivityPage, [Listen("NextSong", 296.0, NonNull(100000000000000000))]);
  }
}
