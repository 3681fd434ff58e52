/** The `songplays` fact table: the filtered log joined with the catalog on
    four columns, each joined row given a surrogate id, then restricted to
    NextSong events. */
module Facts {
  import opened Values
  import opened Records
  import opened Seqs
  import opened Activity

  /** The join condition: song title, length, artist name and location must
      all compare TRUE. Any NULL among them fails the match. */
  function JoinKeysMatch(a: ActivityRecord, c: CatalogRecord): (m: bool)
    ensures m <==>
      && a.song != Null && a.song == c.title
      && a.length != Null && a.length == c.duration
      && a.artist != Null && a.artist == c.artist_name
      && a.location != Null && a.location == c.artist_location
  {
    && SqlEquals(a.song, c.title)
    && SqlEquals(a.length, c.duration)
    && SqlEquals(a.artist, c.artist_name)
    && SqlEquals(a.location, c.artist_location)
  }

  /** One row of the joined DataFrame: an activity record and a catalog
      record it matches. */
  datatype Play = Play(act: Stamped, song: CatalogRecord)

  /** The joined rows of one activity record, in catalog order. */
  function PlaysOf(s: Stamped, catalog: seq<CatalogRecord>): (plays: seq<Play>)
    ensures forall i :: 0 <= i < |plays| ==>
      plays[i].act == s && plays[i].song in catalog && JoinKeysMatch(s.rec, plays[i].song)
    decreases |catalog|
  {
    if |catalog| == 0 then []
    else if JoinKeysMatch(s.rec, catalog[0]) then [Play(s, catalog[0])] + PlaysOf(s, catalog[1..])
    else PlaysOf(s, catalog[1..])
  }

  /** An activity record is paired once with each copy of each catalog
      record it matches, and with nothing else. */
  lemma PlaysOfCounts(s: Stamped, catalog: seq<CatalogRecord>)
    ensures forall p ::
      multiset(PlaysOf(s, catalog))[p] ==
      (if p.act == s && JoinKeysMatch(s.rec, p.song) then multiset(catalog)[p.song] else 0)
  {
    forall p
      ensures multiset(PlaysOf(s, catalog))[p] ==
        (if p.act == s && JoinKeysMatch(s.rec, p.song) then multiset(catalog)[p.song] else 0)
    {
      PlaysOfCount(s, catalog, p);
    }
  }

  /** `PlaysOfCounts` for one pair, by induction on the catalog. */
  lemma {:induction false} PlaysOfCount(s: Stamped, catalog: seq<CatalogRecord>, p: Play)
    ensures multiset(PlaysOf(s, catalog))[p] ==
      (if p.act == s && JoinKeysMatch(s.rec, p.song) then multiset(catalog)[p.song] else 0)
    decreases |catalog|
  {
    if |catalog| != 0 {
      PlaysOfCount(s, catalog[1..], p);
      assert catalog == [catalog[0]] + catalog[1..];
    }
  }

  /** The inner join of the activity records with the catalog. */
  function Join(acts: seq<Stamped>, catalog: seq<CatalogRecord>): (plays: seq<Play>)
    ensures forall i :: 0 <= i < |plays| ==>
      plays[i].act in acts && plays[i].song in catalog && JoinKeysMatch(plays[i].act.rec, plays[i].song)
    decreases |acts|
  {
    if |acts| == 0 then []
    else PlaysOf(acts[0], catalog) + Join(acts[1..], catalog)
  }

  /** The join is the bag inner join: a matching pair occurs as often as
      the product of its two records' multiplicities, and a pair that does
      not match never occurs. */
  lemma JoinCounts(acts: seq<Stamped>, catalog: seq<CatalogRecord>)
    ensures forall p ::
      multiset(Join(acts, catalog))[p] ==
      (if JoinKeysMatch(p.act.rec, p.song) then (multiset(acts)[p.act] as int) * multiset(catalog)[p.song] else 0)
  {
    forall p
      ensures multiset(Join(acts, catalog))[p] ==
        (if JoinKeysMatch(p.act.rec, p.song) then (multiset(acts)[p.act] as int) * multiset(catalog)[p.song] else 0)
    {
      JoinCount(acts, catalog, p);
    }
  }

  /** `JoinCounts` for one pair, by induction on the activity records. */
  lemma {:induction false} JoinCount(acts: seq<Stamped>, catalog: seq<CatalogRecord>, p: Play)
    ensures multiset(Join(acts, catalog))[p] ==
      (if JoinKeysMatch(p.act.rec, p.song) then (multiset(acts)[p.act] as int) * multiset(catalog)[p.song] else 0)
    decreases |acts|
  {
    if |acts| != 0 {
      var a := acts[0];
      var head := PlaysOf(a, catalog);
      var tail := Join(acts[1..], catalog);
      var matches := JoinKeysMatch(p.act.rec, p.song);
      var m := multiset(acts[1..])[p.act];
      var c := multiset(catalog)[p.song];
      assert multiset(Join(acts, catalog))[p] == multiset(head)[p] + multiset(tail)[p] by {
        assert Join(acts, catalog) == head + tail;
      }
      assert multiset(head)[p] == (if p.act == a && matches then c else 0) by {
        PlaysOfCount(a, catalog, p);
      }
      assert multiset(tail)[p] == (if matches then m * c else 0) by {
        JoinCount(acts[1..], catalog, p);
      }
      assert multiset(acts)[p.act] == (if p.act == a then 1 else 0) + m by {
        assert acts == [a] + acts[1..];
      }
      CountStep(multiset(head)[p], multiset(tail)[p], multiset(acts)[p.act], m, c, p.act == a, matches);
    }
  }

  /** The arithmetic of one induction step of `JoinCount`: `h` rows from the
      head record, `t` from the rest, `total` copies of the record in all. */
  lemma CountStep(h: nat, t: nat, total: nat, m: nat, c: nat, isHead: bool, matches: bool)
    requires h == (if isHead && matches then c else 0)
    requires t == (if matches then m * c else 0)
    requires total == (if isHead then 1 else 0) + m
    ensures h + t == (if matches then total * c else 0)
  {
    if matches && isHead {
      assert total * c == c + m * c;
    }
  }

  /** Each catalog record an activity record matches is paired with it. */
  lemma {:induction false} PlaysOfMembers(s: Stamped, catalog: seq<CatalogRecord>, c: CatalogRecord)
    requires c in catalog && JoinKeysMatch(s.rec, c)
    ensures Play(s, c) in PlaysOf(s, catalog)
    decreases |catalog|
  {
    if catalog[0] != c {
      assert c in catalog[1..];
      PlaysOfMembers(s, catalog[1..], c);
    }
  }

  /** An activity record no catalog record matches has no joined rows. */
  lemma {:induction false} PlaysOfUnmatched(s: Stamped, catalog: seq<CatalogRecord>)
    requires forall c :: c in catalog ==> !JoinKeysMatch(s.rec, c)
    ensures PlaysOf(s, catalog) == []
    decreases |catalog|
  {
    if |catalog| != 0 {
      assert catalog[0] in catalog;
      PlaysOfUnmatched(s, catalog[1..]);
    }
  }

  /** Every matching pair is in the join. */
  lemma {:induction false} JoinMembers(acts: seq<Stamped>, catalog: seq<CatalogRecord>, a: Stamped, c: CatalogRecord)
    requires a in acts && c in catalog && JoinKeysMatch(a.rec, c)
    ensures Play(a, c) in Join(acts, catalog)
    decreases |acts|
  {
    if acts[0] == a {
      PlaysOfMembers(a, catalog, c);
    } else {
      assert a in acts[1..];
      JoinMembers(acts[1..], catalog, a, c);
    }
  }

  /** Joining works partition by partition on the activity side. */
  lemma {:induction false} JoinConcat(a: seq<Stamped>, b: seq<Stamped>, catalog: seq<CatalogRecord>)
    ensures Join(a + b, catalog) == Join(a, catalog) + Join(b, catalog)
    decreases |a|
  {
    if |a| == 0 {
      assert a + b == b;
    } else {
      assert (a + b)[0] == a[0];
      assert (a + b)[1..] == a[1..] + b;
      JoinConcat(a[1..], b, catalog);
    }
  }

  /** `page == 'NextSong'` on a stamped activity record. */
  predicate IsNextSong(s: Stamped)
  {
    IsNextSongPage(s.rec)
  }

  /** The `where(page == 'NextSong')` applied to a joined row. */
  predicate IsSongPlay(p: Play)
  {
    IsNextSong(p.act)
  }

  /** The same, on a joined row that already has its id. */
  predicate IsNumberedSongPlay(n: Numbered<Play>)
  {
    IsSongPlay(n.item)
  }

  function RowOf(n: Numbered<Play>): SongplayRow
  {
    var a := n.item.act.rec;
    var c := n.item.song;
    SongplayRow(n.id, n.item.act.moment.timestamp, a.userId, a.level, c.song_id, c.artist_id,
                a.sessionId, a.location, a.userAgent)
  }

  /** `row` holds the columns of the joined pair `p`: the song and artist
      ids from the catalog record, everything else from the activity record. */
  predicate RowFrom(row: SongplayRow, p: Play)
  {
    && row.timestamp == p.act.moment.timestamp
    && row.userId == p.act.rec.userId
    && row.level == p.act.rec.level
    && row.song_id == p.song.song_id
    && row.artist_id == p.song.artist_id
    && row.sessionId == p.act.rec.sessionId
    && row.location == p.act.rec.location
    && row.userAgent == p.act.rec.userAgent
  }

  /** The `songplays` table. Ids are drawn from `next` for every joined row
      before the NextSong restriction, as the id column is computed before
      the `where`; so the kept ids are increasing and distinct, with gaps
      where joined Home events were dropped. */
  function Songplays(acts: seq<Stamped>, catalog: seq<CatalogRecord>, next: nat): (rows: seq<SongplayRow>)
    ensures |rows| <= |Join(acts, catalog)|
    ensures forall i :: 0 <= i < |rows| ==> next <= rows[i].songplay_id < next + |Join(acts, catalog)|
    ensures forall i, j :: 0 <= i < j < |rows| ==> rows[i].songplay_id < rows[j].songplay_id
  {
    NumberAndRestrict(Join(acts, catalog), next)
  }

  /** The select-with-id and the `where` applied to the joined rows. */
  function NumberAndRestrict(plays: seq<Play>, next: nat): (rows: seq<SongplayRow>)
    ensures |rows| <= |plays|
    ensures forall i :: 0 <= i < |rows| ==> next <= rows[i].songplay_id < next + |plays|
    ensures forall i, j :: 0 <= i < j < |rows| ==> rows[i].songplay_id < rows[j].songplay_id
  {
    var numbered := Number(plays, next);
    var kept := Filter(IsNumberedSongPlay, numbered);
    NumberThenItems(plays, next);
    FilterKeepsIdsIncreasing(IsNumberedSongPlay, numbered);
    FilterKeepsIdsWithin(IsNumberedSongPlay, numbered, next, next + |plays|);
    seq(|kept|, i requires 0 <= i < |kept| => RowOf(kept[i]))
  }

  /** Restricting to NextSong after the join is restricting the activity
      records before it. */
  lemma {:induction false} RestrictAfterJoin(acts: seq<Stamped>, catalog: seq<CatalogRecord>)
    ensures Filter(IsSongPlay, Join(acts, catalog)) == Join(Filter(IsNextSong, acts), catalog)
    decreases |acts|
  {
    if |acts| != 0 {
      var head := PlaysOf(acts[0], catalog);
      RestrictAfterJoin(acts[1..], catalog);
      FilterConcat(IsSongPlay, head, Join(acts[1..], catalog));
      if IsNextSong(acts[0]) {
        FilterAll(IsSongPlay, head);
        var f := Filter(IsNextSong, acts);
        assert f[0] == acts[0] && f[1..] == Filter(IsNextSong, acts[1..]);
      } else {
        FilterNone(IsSongPlay, head);
      }
    }
  }

  /** The rows of `songplays` are, in order, the rows of the join of the
      NextSong records with the catalog, each under its own id. */
  lemma SongplaysAreNextSongJoin(acts: seq<Stamped>, catalog: seq<CatalogRecord>, next: nat)
    ensures var plays := Join(Filter(IsNextSong, acts), catalog);
      var rows := Songplays(acts, catalog, next);
      && |rows| == |plays|
      && forall k :: 0 <= k < |rows| ==> RowFrom(rows[k], plays[k])
  {
    var numbered := Number(Join(acts, catalog), next);
    var kept := Filter(IsNumberedSongPlay, numbered);
    NumberThenItems(Join(acts, catalog), next);
    FilterItems(IsNumberedSongPlay, IsSongPlay, numbered);
    RestrictAfterJoin(acts, catalog);
    var plays := Join(Filter(IsNextSong, acts), catalog);
    assert Items(kept) == plays;
    forall k | 0 <= k < |kept|
      ensures RowFrom(RowOf(kept[k]), plays[k])
    {
      assert kept[k].item == Items(kept)[k];
    }
  }

  /** `row` was produced from a NextSong record of `acts` and a catalog
      record whose four join columns equal its own. */
  ghost predicate FromNextSongMatch(row: SongplayRow, acts: seq<Stamped>, catalog: seq<CatalogRecord>)
  {
    exists p: Play :: && p.act in acts && p.song in catalog
                      && IsNextSong(p.act) && JoinKeysMatch(p.act.rec, p.song)
                      && RowFrom(row, p)
  }

  /** Every `songplays` row comes from a NextSong record of the log and a
      catalog record it matches. */
  lemma SongplayRowsComeFromMatches(acts: seq<Stamped>, catalog: seq<CatalogRecord>, next: nat)
    ensures forall row :: row in Songplays(acts, catalog, next) ==> FromNextSongMatch(row, acts, catalog)
  {
    var rows := Songplays(acts, catalog, next);
    var plays := Join(Filter(IsNextSong, acts), catalog);
    SongplaysAreNextSongJoin(acts, catalog, next);
    FilterMembers(IsNextSong, acts);
    forall row | row in rows
      ensures FromNextSongMatch(row, acts, catalog)
    {
      var k :| 0 <= k < |rows| && rows[k] == row;
      var p := plays[k];
      assert p.act in Filter(IsNextSong, acts) && p.song in catalog && JoinKeysMatch(p.act.rec, p.song);
      assert p.act in acts && IsNextSong(p.act);
      assert RowFrom(rows[k], p);
    }
  }

  /** Conversely every NextSong record and matching catalog record give a
      `songplays` row: the join drops only unmatched plays. */
  lemma EveryMatchGivesSongplay(acts: seq<Stamped>, catalog: seq<CatalogRecord>, next: nat, a: Stamped, c: CatalogRecord)
    requires a in acts && c in catalog
    requires IsNextSong(a) && JoinKeysMatch(a.rec, c)
    ensures var rows := Songplays(acts, catalog, next);
      exists k :: 0 <= k < |rows| && RowFrom(rows[k], Play(a, c))
  {
    var plays := Join(Filter(IsNextSong, acts), catalog);
    SongplaysAreNextSongJoin(acts, catalog, next);
    FilterMembers(IsNextSong, acts);
    JoinMembers(Filter(IsNextSong, acts), catalog, a, c);
    var k :| 0 <= k < |plays| && plays[k] == Play(a, c);
  }

  /** The number of `songplays` rows is the number of matching (NextSong
      record, catalog record) pairs, counted with multiplicity: an activity
      record matching k catalog records gives k rows. */
  lemma SongplayCount(acts: seq<Stamped>, catalog: seq<CatalogRecord>, next: nat)
    ensures |Songplays(acts, catalog, next)| == |Join(Filter(IsNextSong, acts), catalog)|
    ensures forall p ::
      multiset(Join(Filter(IsNextSong, acts), catalog))[p] ==
      (if IsNextSong(p.act) && JoinKeysMatch(p.act.rec, p.song)
       then (multiset(acts)[p.act] as int) * multiset(catalog)[p.song] else 0)
  {
    SongplaysAreNextSongJoin(acts, catalog, next);
    NextSongJoinCounts(acts, catalog);
  }

  /** The multiplicities of `SongplayCount`. */
  lemma NextSongJoinCounts(acts: seq<Stamped>, catalog: seq<CatalogRecord>)
    ensures forall p ::
      multiset(Join(Filter(IsNextSong, acts), catalog))[p] ==
      (if IsNextSong(p.act) && JoinKeysMatch(p.act.rec, p.song)
       then (multiset(acts)[p.act] as int) * multiset(catalog)[p.song] else 0)
  {
    forall p
      ensures multiset(Join(Filter(IsNextSong, acts), catalog))[p] ==
        (if IsNextSong(p.act) && JoinKeysMatch(p.act.rec, p.song)
         then (multiset(acts)[p.act] as int) * multiset(catalog)[p.song] else 0)
    {
      NextSongJoinCount(acts, catalog, p);
    }
  }

  /** The count of `SongplayCount` for one pair. */
  lemma NextSongJoinCount(acts: seq<Stamped>, catalog: seq<CatalogRecord>, p: Play)
    ensures multiset(Join(Filter(IsNextSong, acts), catalog))[p] ==
      (if IsNextSong(p.act) && JoinKeysMatch(p.act.rec, p.song)
       then (multiset(acts)[p.act] as int) * multiset(catalog)[p.song] else 0)
  {
    var kept := Filter(IsNextSong, acts);
    JoinCount(kept, catalog, p);
    FilterCounts(IsNextSong, acts);
    var k := multiset(kept)[p.act];
    var c := multiset(catalog)[p.song];
    if !IsNextSong(p.act) {
      assert k == 0;
      assert k * c == 0;
    } else {
      assert k == multiset(acts)[p.act];
    }
  }

  /** An activity record with no matching catalog record contributes
      nothing: adding it to the log leaves `songplays` unchanged, ids
      included. */
  lemma UnmatchedPlayAddsNothing(before: seq<Stamped>, a: Stamped, after: seq<Stamped>,
                                 catalog: seq<CatalogRecord>, next: nat)
    requires forall c :: c in catalog ==> !JoinKeysMatch(a.rec, c)
    ensures Songplays(before + [a] + after, catalog, next) == Songplays(before + after, catalog, next)
  {
    JoinSkipsUnmatched(before, a, after, catalog);
  }

  lemma JoinSkipsUnmatched(before: seq<Stamped>, a: Stamped, after: seq<Stamped>, catalog: seq<CatalogRecord>)
    requires forall c :: c in catalog ==> !JoinKeysMatch(a.rec, c)
    ensures Join(before + [a] + after, catalog) == Join(before + after, catalog)
  {
    JoinConcat(before + [a], after, catalog);
    JoinConcat(before, [a], catalog);
    JoinConcat(before, after, catalog);
    PlaysOfUnmatched(a, catalog);
    assert Join([a], catalog) == PlaysOf(a, catalog) + Join([a][1..], catalog);
  }
}
