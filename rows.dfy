/** What the catalogue readers share: the LEFT JOIN lookups, the row scan
    that fails on a NULL artist or duration, the "personal uploads excluded,
    newest first" order, LIMIT, and the loop that appends the rows that
    scan. */
module Rows {
  import opened Wrappers
  import opened Catalog

  /** A song row as a reader returns it, with the names the query joined in. */
  datatype SongView = SongView(song: Song, artistName: Option<string>, albumTitle: Option<string>,
                               categoryName: Option<string>)

  /** Song.ArtistID and Song.DurationSeconds are plain ints: a NULL in
      either column makes rows.Scan fail. */
  predicate Scannable(s: Song) {
    s.artistId.Some? && s.duration.Some?
  }

  /** A LEFT JOIN on an id column: the name stored beside the first row
      with that id, NULL when there is none. */
  function JoinedName(rows: seq<(int, string)>, id: Option<int>): (r: Option<string>)
    ensures r.Some? ==> id.Some? && exists k :: 0 <= k < |rows| && rows[k].0 == id.value && rows[k].1 == r.value
    ensures r.None? ==> id.None? || forall k :: 0 <= k < |rows| ==> rows[k].0 != id.value
  {
    if id.None? || rows == [] then None
    else if rows[0].0 == id.value then Some(rows[0].1)
    else
      var r := JoinedName(rows[1..], id);
      assert forall k :: 1 <= k < |rows| ==> rows[k] == rows[1..][k - 1];
      r
  }

  /** LEFT JOIN artists a ON s.artist_id = a.id. */
  function ArtistNameOf(artists: seq<Artist>, id: Option<int>): (r: Option<string>)
    ensures r.Some? ==> id.Some? && exists k :: 0 <= k < |artists| && artists[k].id == id.value && artists[k].name == r.value
    ensures r.None? ==> id.None? || forall k :: 0 <= k < |artists| ==> artists[k].id != id.value
  {
    var rows := seq(|artists|, k requires 0 <= k < |artists| => (artists[k].id, artists[k].name));
    assert forall k :: 0 <= k < |artists| ==> rows[k].0 == artists[k].id;
    JoinedName(rows, id)
  }

  /** LEFT JOIN albums al ON s.album_id = al.id. */
  function AlbumTitleOf(albums: seq<Album>, id: Option<int>): (r: Option<string>)
    ensures r.Some? ==> id.Some? && exists k :: 0 <= k < |albums| && albums[k].id == id.value && albums[k].title == r.value
    ensures r.None? ==> id.None? || forall k :: 0 <= k < |albums| ==> albums[k].id != id.value
  {
    var rows := seq(|albums|, k requires 0 <= k < |albums| => (albums[k].id, albums[k].title));
    assert forall k :: 0 <= k < |albums| ==> rows[k].0 == albums[k].id;
    JoinedName(rows, id)
  }

  /** LEFT JOIN categories c ON s.category_id = c.id. */
  function CategoryNameOf(categories: seq<Category>, id: Option<int>): (r: Option<string>)
    ensures r.Some? ==> id.Some? && exists k :: 0 <= k < |categories| && categories[k].id == id.value && categories[k].name == r.value
    ensures r.None? ==> id.None? || forall k :: 0 <= k < |categories| ==> categories[k].id != id.value
  {
    var rows := seq(|categories|, k requires 0 <= k < |categories| => (categories[k].id, categories[k].name));
    assert forall k :: 0 <= k < |categories| ==> rows[k].0 == categories[k].id;
    JoinedName(rows, id)
  }

  /** The columns each reader selects and the names it attaches. */
  datatype Shape =
    | Recent    // id, title, artist_id, duration, file_path, format; artist name
    | Matched   // every column; artist, album and category names
    | InCategory // every column; artist name

  function ViewOf(t: Tables, s: Song, shape: Shape): (v: SongView)
    ensures v.song.id == s.id && v.song.title == s.title && v.song.filePath == s.filePath
    ensures v.artistName == ArtistNameOf(t.artists, s.artistId)
  {
    match shape
    case Recent =>
      SongView(s.(albumId := None, categoryId := None, uploadedBy := None), ArtistNameOf(t.artists, s.artistId), None, None)
    case Matched =>
      SongView(s, ArtistNameOf(t.artists, s.artistId), AlbumTitleOf(t.albums, s.albumId),
               CategoryNameOf(t.categories, s.categoryId))
    case InCategory =>
      SongView(s, ArtistNameOf(t.artists, s.artistId), None, None)
  }

  /** The scan loop: every row that scans, in order, with its names. */
  function Scanned(t: Tables, rows: seq<Song>, shape: Shape): (r: seq<SongView>)
    ensures |r| <= |rows|
    ensures forall v :: v in r ==> exists s :: s in rows && Scannable(s) && v == ViewOf(t, s, shape)
    ensures forall s :: s in rows && Scannable(s) ==> ViewOf(t, s, shape) in r
  {
    if rows == [] then []
    else
      var front := rows[..|rows| - 1];
      var s := rows[|rows| - 1];
      assert rows == front + [s];
      Scanned(t, front, shape) + (if Scannable(s) then [ViewOf(t, s, shape)] else [])
  }

  /** Rows that all scan come back one for one. */
  lemma {:induction false} ScannedAll(t: Tables, rows: seq<Song>, shape: Shape)
    requires forall i :: 0 <= i < |rows| ==> Scannable(rows[i])
    ensures |Scanned(t, rows, shape)| == |rows|
  {
    if rows != [] {
      ScannedAll(t, rows[..|rows| - 1], shape);
    }
  }

  /** Newest first: the song ids strictly decrease along the list. */
  predicate NewestFirst(vs: seq<SongView>) {
    forall i, j :: 0 <= i < j < |vs| ==> vs[i].song.id > vs[j].song.id
  }

  predicate IdsDecreasing(rows: seq<Song>) {
    forall i, j :: 0 <= i < j < |rows| ==> rows[i].id > rows[j].id
  }

  /** The scan keeps the order of the rows it reads. */
  lemma {:induction false} ScannedKeepsOrder(t: Tables, rows: seq<Song>, shape: Shape)
    requires IdsDecreasing(rows)
    ensures NewestFirst(Scanned(t, rows, shape))
  {
    if rows != [] {
      var front := rows[..|rows| - 1];
      var s := rows[|rows| - 1];
      assert IdsDecreasing(front);
      ScannedKeepsOrder(t, front, shape);
      var r := Scanned(t, front, shape);
      if Scannable(s) {
        var r' := r + [ViewOf(t, s, shape)];
        forall i, j | 0 <= i < j < |r'|
          ensures r'[i].song.id > r'[j].song.id
        {
          assert r'[i] == r[i] && r[i] in r;
          var x :| x in front && Scannable(x) && r[i] == ViewOf(t, x, shape);
          var k :| 0 <= k < |front| && front[k] == x;
          assert rows[k] == x;
          if j < |r| {
            assert r'[j] == r[j];
          }
        }
      }
    }
  }

  /** WHERE s.uploaded_by_user_id IS NULL ORDER BY s.created_at DESC, with
      created_at order taken as insertion order. */
  function Catalogue(songs: seq<Song>): (r: seq<Song>)
    ensures |r| <= |songs|
    ensures forall s :: s in r <==> s in songs && s.uploadedBy.None?
  {
    if songs == [] then []
    else
      var front := songs[..|songs| - 1];
      var s := songs[|songs| - 1];
      assert songs == front + [s];
      (if s.uploadedBy.None? then [s] else []) + Catalogue(front)
  }

  /** Newest first: with ids in insertion order, the catalogue's ids fall. */
  lemma {:induction false} CatalogueNewestFirst(songs: seq<Song>, next: nat)
    requires SongIdsOrdered(songs, next)
    ensures IdsDecreasing(Catalogue(songs))
  {
    if songs != [] {
      var front := songs[..|songs| - 1];
      var s := songs[|songs| - 1];
      SongsOrderedFront(songs, next);
      CatalogueNewestFirst(front, next);
      var c := Catalogue(front);
      if s.uploadedBy.None? {
        forall k | 0 <= k < |c|
          ensures c[k].id < s.id
        {
          assert c[k] in c;
        }
        PrependNewer(s, c);
        assert Catalogue(songs) == [s] + c;
      } else {
        assert Catalogue(songs) == [] + c;
      }
    }
  }

  /** A row newer than every row of a falling sequence can head it. */
  lemma PrependNewer(s: Song, c: seq<Song>)
    requires IdsDecreasing(c) && forall k :: 0 <= k < |c| ==> c[k].id < s.id
    ensures IdsDecreasing([s] + c)
  {
    var r := [s] + c;
    forall i, j | 0 <= i < j < |r|
      ensures r[i].id > r[j].id
    {
      assert r[j] == c[j - 1];
      if i > 0 {
        assert r[i] == c[i - 1];
      }
    }
  }

  /** LIMIT n, for the positive limits the readers use. */
  function Take<T>(xs: seq<T>, n: nat): (r: seq<T>)
    ensures |r| == if n < |xs| then n else |xs|
    ensures forall i :: 0 <= i < |r| ==> r[i] == xs[i]
  {
    if n >= |xs| then xs else xs[..n]
  }

  lemma TakeDecreasing(rows: seq<Song>, n: nat)
    requires IdsDecreasing(rows)
    ensures IdsDecreasing(Take(rows, n))
  {
  }

  /** The reader loop: rows.Next, rows.Scan, `continue` on a scan error,
      append otherwise. */
  method ScanRows(t: Tables, rows: seq<Song>, shape: Shape) returns (out: seq<SongView>)
    ensures out == Scanned(t, rows, shape)
  {
    out := [];
    var i := 0;
    while i < |rows|
      invariant 0 <= i <= |rows|
      invariant out == Scanned(t, rows[..i], shape)
    {
      var s := rows[i];
      assert rows[..i + 1][..i] == rows[..i];
      if Scannable(s) {
        out := out + [ViewOf(t, s, shape)];
      }
      i := i + 1;
    }
    assert rows[..|rows|] == rows;
  }
}
