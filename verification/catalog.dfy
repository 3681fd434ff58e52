/** The catalog side of the run (`process_song_data`): the `songs` and
    `artists` dimensions are column projections of the catalog records,
    with no filtering and no deduplication. */
module Catalog {
  import opened Values
  import opened Records
  import opened Seqs

  function SongOf(c: CatalogRecord): SongRow
  {
    SongRow(c.song_id, c.title, c.artist_id, c.year, c.duration)
  }

  function ArtistOf(c: CatalogRecord): ArtistRow
  {
    ArtistRow(c.artist_id, c.artist_name, c.artist_location, c.artist_latitude, c.artist_longitude)
  }

  /** The `songs` table: one row per catalog record, in input order, each
      holding that record's five song columns unchanged. */
  function ProjectSongs(catalog: seq<CatalogRecord>): (songs: seq<SongRow>)
    ensures |songs| == |catalog|
    ensures forall i :: 0 <= i < |catalog| ==>
      && songs[i].song_id == catalog[i].song_id
      && songs[i].title == catalog[i].title
      && songs[i].artist_id == catalog[i].artist_id
      && songs[i].year == catalog[i].year
      && songs[i].duration == catalog[i].duration
  {
    seq(|catalog|, i requires 0 <= i < |catalog| => SongOf(catalog[i]))
  }

  /** The `artists` table: one row per catalog record, in input order, each
      holding that record's five artist columns unchanged. An artist with
      several songs appears once per song. */
  function ProjectArtists(catalog: seq<CatalogRecord>): (artists: seq<ArtistRow>)
    ensures |artists| == |catalog|
    ensures forall i :: 0 <= i < |catalog| ==>
      && artists[i].artist_id == catalog[i].artist_id
      && artists[i].artist_name == catalog[i].artist_name
      && artists[i].artist_location == catalog[i].artist_location
      && artists[i].artist_latitude == catalog[i].artist_latitude
      && artists[i].artist_longitude == catalog[i].artist_longitude
  {
    seq(|catalog|, i requires 0 <= i < |catalog| => ArtistOf(catalog[i]))
  }

  /** Puts catalog records back together from a songs row and an artists
      row standing at the same position. */
  function Recombine(songs: seq<SongRow>, artists: seq<ArtistRow>): (catalog: seq<CatalogRecord>)
    requires |songs| == |artists|
    ensures |catalog| == |songs|
  {
    seq(|songs|, i requires 0 <= i < |songs| =>
      var s := songs[i];
      var a := artists[i];
      CatalogRecord(s.song_id, s.title, s.artist_id, a.artist_name, a.artist_location,
                    a.artist_latitude, a.artist_longitude, s.year, s.duration))
  }

  /** Between them the two projections keep every catalog column, and they
      agree on the one they share: the decomposition is lossless. */
  lemma ProjectionsAreLossless(catalog: seq<CatalogRecord>)
    ensures Recombine(ProjectSongs(catalog), ProjectArtists(catalog)) == catalog
    ensures forall i :: 0 <= i < |catalog| ==>
      ProjectSongs(catalog)[i].artist_id == ProjectArtists(catalog)[i].artist_id
  {
    var r := Recombine(ProjectSongs(catalog), ProjectArtists(catalog));
    forall i | 0 <= i < |catalog|
      ensures r[i] == catalog[i]
    {
    }
  }

  /** Projecting works partition by partition. */
  lemma ProjectionsSplit(a: seq<CatalogRecord>, b: seq<CatalogRecord>)
    ensures ProjectSongs(a + b) == ProjectSongs(a) + ProjectSongs(b)
    ensures ProjectArtists(a + b) == ProjectArtists(a) + ProjectArtists(b)
  {
  }

  /** The catalog records whose artist columns are those of `r`. */
  function ArtistIs(r: ArtistRow): CatalogRecord -> bool
  {
    c => ArtistOf(c) == r
  }

  /** No deduplication: the `artists` rows equal to `r` are exactly as many
      as the catalog records carrying those artist columns, so an artist
      with several songs has several rows. */
  lemma {:induction false} ArtistsKeepDuplicates(catalog: seq<CatalogRecord>, r: ArtistRow)
    ensures multiset(ProjectArtists(catalog))[r] == |Filter(ArtistIs(r), catalog)|
    decreases |catalog|
  {
    if |catalog| != 0 {
      ArtistsKeepDuplicates(catalog[1..], r);
      assert ProjectArtists(catalog) == [ArtistOf(catalog[0])] + ProjectArtists(catalog[1..]);
    }
  }
}
