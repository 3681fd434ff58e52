/** The input records and the five output tables of the star schema. Column
    names are the JSON field names and output column names, which are the
    wire contract with the producers and consumers of the data. Every
    column is nullable, as in a DataFrame read from JSON. */
module Records {
  import opened Values

  /** One object of the song catalog (one JSON object per song file). */
  datatype CatalogRecord = CatalogRecord(
    song_id: Nullable<string>,
    title: Nullable<string>,
    artist_id: Nullable<string>,
    artist_name: Nullable<string>,
    artist_location: Nullable<string>,
    artist_latitude: Nullable<real>,
    artist_longitude: Nullable<real>,
    year: Nullable<int>,
    duration: Nullable<real>)

  /** One event of the listening-activity log (one JSON object per event);
      `ts` is epoch milliseconds. */
  datatype ActivityRecord = ActivityRecord(
    userId: Nullable<string>,
    firstName: Nullable<string>,
    lastName: Nullable<string>,
    gender: Nullable<string>,
    level: Nullable<string>,
    ts: Nullable<int>,
    page: Nullable<string>,
    song: Nullable<string>,
    artist: Nullable<string>,
    length: Nullable<real>,
    location: Nullable<string>,
    sessionId: Nullable<int>,
    userAgent: Nullable<string>)

  /** What the run derives from one `ts`: the formatted local wall-clock
      `timestamp` and its calendar parts. */
  datatype Moment = Moment(
    timestamp: string,
    hour: int,
    day: int,
    week: int,
    month: int,
    year: int,
    weekday: int)

  /** What the conversion makes of one `ts`: its moment, or a failure when
      `ts / 1000` seconds lies outside what the local calendar can represent
      (`datetime.fromtimestamp` raises). */
  datatype Reading = InRange(moment: Moment) | OutOfRange

  /** The timestamp conversion, supplied from outside: it depends on the
      machine's local time zone and on calendar rules that are not modelled,
      including where its range ends. */
  type Clock = int -> Reading

  /** An activity record with its derived `timestamp` columns attached. */
  datatype Stamped = Stamped(rec: ActivityRecord, moment: Moment)

  /** Row of the `songs` dimension. */
  datatype SongRow = SongRow(
    song_id: Nullable<string>,
    title: Nullable<string>,
    artist_id: Nullable<string>,
    year: Nullable<int>,
    duration: Nullable<real>)

  /** Row of the `artists` dimension. */
  datatype ArtistRow = ArtistRow(
    artist_id: Nullable<string>,
    artist_name: Nullable<string>,
    artist_location: Nullable<string>,
    artist_latitude: Nullable<real>,
    artist_longitude: Nullable<real>)

  /** Row of the `users` dimension. */
  datatype UserRow = UserRow(
    userId: Nullable<string>,
    firstName: Nullable<string>,
    lastName: Nullable<string>,
    gender: Nullable<string>,
    level: Nullable<string>)

  /** Row of the `time` dimension; `id` is a surrogate key. */
  datatype TimeRow = TimeRow(
    id: nat,
    timestamp: string,
    hour: int,
    day: int,
    week: int,
    month: int,
    year: int,
    weekday: int)

  /** Row of the `songplays` fact table; `songplay_id` is a surrogate key. */
  datatype SongplayRow = SongplayRow(
    songplay_id: nat,
    timestamp: string,
    userId: Nullable<string>,
    level: Nullable<string>,
    song_id: Nullable<string>,
    artist_id: Nullable<string>,
    sessionId: Nullable<int>,
    location: Nullable<string>,
    userAgent: Nullable<string>)
}
