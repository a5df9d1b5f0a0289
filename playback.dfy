/** The playback service: song metadata by id, stream authorisation, and
    the recently added songs. */
module Playback {
  import opened Wrappers
  import opened Strs
  import opened Paths
  import opened Catalog
  import opened Rows

  const MsgTrackNotFound := "track not found"
  const DefaultRecentLimit: nat := 20

  /** What os.Stat says about a path; only "does not exist" stops a stream. */
  datatype StatResult = Present | Missing | Unreadable

  /** WHERE s.id = ?: the first row with that id. */
  function FindSong(songs: seq<Song>, id: int, from: nat): (r: Option<nat>)
    requires from <= |songs|
    ensures r.Some? ==> from <= r.value < |songs| && songs[r.value].id == id
                        && forall k :: from <= k < r.value ==> songs[k].id != id
    ensures r.None? <==> forall k :: from <= k < |songs| ==> songs[k].id != id
    decreases |songs| - from
  {
    if from == |songs| then None
    else if songs[from].id == id then Some(from)
    else FindSong(songs, id, from + 1)
  }

  /** With ids in insertion order, the row holding an id is the one found. */
  lemma FindStoredSong(songs: seq<Song>, next: nat, i: nat)
    requires SongIdsOrdered(songs, next) && i < |songs|
    ensures FindSong(songs, songs[i].id, 0) == Some(i)
  {
    assert FindSong(songs, songs[i].id, 0).Some?;
  }

  /** GetSongByID. A missing row, a failing query and a row that does not
      scan all read as "track not found". The artist is attached when the
      join finds a name, the album and category when the song has the id
      and the join finds the row. */
  function GetSongByID(t: Tables, id: int, queryFault: bool): (r: Result<SongView>)
    ensures r.Err? ==> r == Err(MsgTrackNotFound)
    ensures r.Ok? <==> !queryFault && FindSong(t.songs, id, 0).Some? && Scannable(t.songs[FindSong(t.songs, id, 0).value])
    ensures r.Ok? ==> r.value.song == t.songs[FindSong(t.songs, id, 0).value] && r.value.song.id == id
    ensures r.Ok? ==>
      (r.value.artistName.Some? <==> exists k :: 0 <= k < |t.artists| && t.artists[k].id == r.value.song.artistId.value)
    ensures r.Ok? && r.value.artistName.Some? ==>
      exists k :: 0 <= k < |t.artists| && t.artists[k].id == r.value.song.artistId.value && t.artists[k].name == r.value.artistName.value
    ensures r.Ok? ==>
      (r.value.albumTitle.Some? <==>
         r.value.song.albumId.Some? && exists k :: 0 <= k < |t.albums| && t.albums[k].id == r.value.song.albumId.value)
    ensures r.Ok? ==>
      (r.value.categoryName.Some? <==>
         r.value.song.categoryId.Some? && exists k :: 0 <= k < |t.categories| && t.categories[k].id == r.value.song.categoryId.value)
  {
    if queryFault then Err(MsgTrackNotFound)
    else
      match FindSong(t.songs, id, 0)
      case None => Err(MsgTrackNotFound)
      case Some(i) =>
        if !Scannable(t.songs[i]) then Err(MsgTrackNotFound)
        else Ok(ViewOf(t, t.songs[i], Matched))
  }

  /** Every stored song that scans is found by its id. */
  lemma StoredSongDescribed(t: Tables, next: nat, i: nat)
    requires SongIdsOrdered(t.songs, next) && i < |t.songs| && Scannable(t.songs[i])
    ensures GetSongByID(t, t.songs[i].id, false).Ok?
    ensures GetSongByID(t, t.songs[i].id, false).value.song == t.songs[i]
  {
    FindStoredSong(t.songs, next, i);
  }

  /** AuthorizeStream. Only file_path is read, so a row that GetSongByID
      cannot scan can still be streamed; a stat error other than "does not
      exist" does not stop the stream. */
  function AuthorizeStream(songs: seq<Song>, id: int, storagePath: string, queryFault: bool,
                           stat: string -> StatResult): (r: Result<string>)
    ensures r.Err? ==> r == Err(MsgTrackNotFound)
    ensures r.Ok? <==>
      && !queryFault && FindSong(songs, id, 0).Some?
      && stat(JoinPath(storagePath, songs[FindSong(songs, id, 0).value].filePath)) != Missing
    ensures r.Ok? ==> r.value == JoinPath(storagePath, songs[FindSong(songs, id, 0).value].filePath)
  {
    if queryFault then Err(MsgTrackNotFound)
    else
      match FindSong(songs, id, 0)
      case None => Err(MsgTrackNotFound)
      case Some(i) =>
        var full := JoinPath(storagePath, songs[i].filePath);
        if stat(full) == Missing then Err(MsgTrackNotFound) else Ok(full)
  }

  /** The admin prefix is "media" and "songs", each followed by '/'. */
  lemma AdminPrefixPieces(name: string)
    ensures "media/songs/" + name == "media" + ['/'] + ("songs" + ['/'] + name)
    ensures '/' !in "media" && '/' !in "songs"
  {
    assert "media/songs/" == "media" + ['/'] + "songs" + ['/'];
  }

  /** "media/songs/<name>" splits into its three plain elements. */
  lemma AdminPathElements(name: string)
    requires Plain(name) && '/' !in name
    ensures AllPlain(Split("media/songs/" + name, '/'))
  {
    AdminPrefixPieces(name);
    var tail := "songs" + ['/'] + name;
    SplitNoSep(name, '/');
    SplitConcat("songs", name, '/');
    SplitConcat("media", tail, '/');
    var parts := Split("media/songs/" + name, '/');
    assert parts == ["media", "songs", name];
    assert Plain(parts[0]) && Plain(parts[1]) && Plain(parts[2]);
  }

  /** A song the admin uploaded streams from below the storage directory:
      with a storage path "./<dir>" (the default is "./storage") the path
      is "<dir>/media/songs/<name>". */
  lemma AdminUploadStreamPath(songs: seq<Song>, next: nat, i: nat, dir: string, name: string,
                              stat: string -> StatResult)
    requires SongIdsOrdered(songs, next) && i < |songs|
    requires Plain(dir) && '/' !in dir
    requires songs[i].filePath == "media/songs/" + name && Plain(name) && '/' !in name
    requires stat(dir + "/media/songs/" + name) != Missing
    ensures AuthorizeStream(songs, songs[i].id, "./" + dir, false, stat) == Ok(dir + "/media/songs/" + name)
  {
    FindStoredSong(songs, next, i);
    AdminPathElements(name);
    var rel := "media/songs/" + name;
    assert rel[0] == 'm';
    JoinBelowDotSlash(dir, rel);
    assert dir + "/" + rel == dir + "/media/songs/" + name;
  }

  /** A row with a NULL duration streams but cannot be described. */
  lemma StreamableButNotDescribed(t: Tables, next: nat, i: nat, storagePath: string, stat: string -> StatResult)
    requires SongIdsOrdered(t.songs, next) && i < |t.songs| && t.songs[i].duration.None?
    requires stat(JoinPath(storagePath, t.songs[i].filePath)) == Present
    ensures GetSongByID(t, t.songs[i].id, false) == Err(MsgTrackNotFound)
    ensures AuthorizeStream(t.songs, t.songs[i].id, storagePath, false, stat).Ok?
  {
    FindStoredSong(t.songs, next, i);
  }

  /** `if limit <= 0 { limit = 20 }`. */
  function EffectiveLimit(limit: int): (n: nat)
    ensures n >= 1
    ensures limit <= 0 ==> n == DefaultRecentLimit
    ensures limit > 0 ==> n == limit
  {
    if limit <= 0 then DefaultRecentLimit else limit
  }

  /** The rows the recent-songs query returns, as the loop scans them. */
  function RecentSongs(t: Tables, limit: int): (r: seq<SongView>)
    ensures |r| <= if limit <= 0 then DefaultRecentLimit else limit
  {
    Scanned(t, Take(Catalogue(t.songs), EffectiveLimit(limit)), Recent)
  }

  /** GetRecentSongs: a failing query is returned as an error; rows that
      do not scan are skipped. */
  method GetRecentSongs(t: Tables, limit: int, queryFault: bool) returns (r: Result<seq<SongView>>)
    ensures queryFault ==> r == Err(MsgDbError)
    ensures !queryFault ==> r == Ok(RecentSongs(t, limit))
  {
    if queryFault {
      return Err(MsgDbError);
    }
    var n := if limit <= 0 then DefaultRecentLimit else limit;
    var rows := Take(Catalogue(t.songs), n);
    var songs := ScanRows(t, rows, Recent);
    return Ok(songs);
  }

  /** At most `limit` songs (20 for a non-positive limit), none of them a
      personal upload, newest first. */
  lemma RecentSongsSpec(t: Tables, next: nat, limit: int)
    requires SongIdsOrdered(t.songs, next)
    ensures |RecentSongs(t, limit)| <= EffectiveLimit(limit)
    ensures forall v :: v in RecentSongs(t, limit) ==>
      exists s :: s in t.songs && s.uploadedBy.None? && Scannable(s) && v.song.id == s.id
    ensures NewestFirst(RecentSongs(t, limit))
  {
    var cat := Catalogue(t.songs);
    var rows := Take(cat, EffectiveLimit(limit));
    CatalogueNewestFirst(t.songs, next);
    TakeDecreasing(cat, EffectiveLimit(limit));
    ScannedKeepsOrder(t, rows, Recent);
    forall v | v in RecentSongs(t, limit)
      ensures exists s :: s in t.songs && s.uploadedBy.None? && Scannable(s) && v.song.id == s.id
    {
      var s :| s in rows && Scannable(s) && v == ViewOf(t, s, Recent);
      var k :| 0 <= k < |rows| && rows[k] == s;
      assert cat[k] == s;
    }
  }

  /** When every catalogue song scans and there are no more than the limit,
      each of them is returned. */
  lemma RecentSongsComplete(t: Tables, limit: int)
    requires |Catalogue(t.songs)| <= EffectiveLimit(limit)
    requires forall s :: s in t.songs && s.uploadedBy.None? ==> Scannable(s)
    ensures |RecentSongs(t, limit)| == |Catalogue(t.songs)|
  {
    var cat := Catalogue(t.songs);
    assert Take(cat, EffectiveLimit(limit)) == cat;
    forall i | 0 <= i < |cat|
      ensures Scannable(cat[i])
    {
      assert cat[i] in cat;
    }
    ScannedAll(t, cat, Recent);
  }
}
