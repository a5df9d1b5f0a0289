/** The search service: the full-text search over songs, artists and
    albums, the songs of one category, and the category list. Each query
    is a filter and a LIMIT over the table rows; the Go loops that read the
    rows are the methods, proved against the functions that say which rows
    the query returns. */
module Search {
  import opened Wrappers
  import opened Strs
  import opened Catalog
  import opened Rows
  import Playlists

  const SongLimit: nat := 50
  const ArtistLimit: nat := 20
  const AlbumLimit: nat := 20
  const CategorySongLimit: nat := 100

  // ---------------------------------------------------------------------
  // Matching: LOWER(column) LIKE '%' || lower(query) || '%'
  // ---------------------------------------------------------------------

  /** A nullable column matched against the lowered query; NULL (a LEFT
      JOIN that found nothing) never matches. */
  predicate Like(column: Option<string>, term: string) {
    column.Some? && Contains(Lower(column.value), term)
  }

  predicate SongMatches(t: Tables, s: Song, term: string) {
    || Like(Some(s.title), term)
    || Like(ArtistNameOf(t.artists, s.artistId), term)
    || Like(AlbumTitleOf(t.albums, s.albumId), term)
  }

  predicate AlbumMatches(t: Tables, a: Album, term: string) {
    Like(Some(a.title), term) || Like(ArtistNameOf(t.artists, a.artistId), term)
  }

  /** The songs the song query selects before its LIMIT: matching, not a
      personal upload, in table order. */
  function MatchingSongs(t: Tables, songs: seq<Song>, term: string): (r: seq<Song>)
    ensures |r| <= |songs|
    ensures forall s :: s in r <==> s in songs && s.uploadedBy.None? && SongMatches(t, s, term)
  {
    if songs == [] then []
    else
      var front := songs[..|songs| - 1];
      var s := songs[|songs| - 1];
      assert songs == front + [s];
      MatchingSongs(t, front, term) + (if s.uploadedBy.None? && SongMatches(t, s, term) then [s] else [])
  }

  function MatchingArtists(artists: seq<Artist>, term: string): (r: seq<Artist>)
    ensures |r| <= |artists|
    ensures forall a :: a in r <==> a in artists && Like(Some(a.name), term)
  {
    if artists == [] then []
    else
      var front := artists[..|artists| - 1];
      var a := artists[|artists| - 1];
      assert artists == front + [a];
      MatchingArtists(front, term) + (if Like(Some(a.name), term) then [a] else [])
  }

  function MatchingAlbums(t: Tables, albums: seq<Album>, term: string): (r: seq<Album>)
    ensures |r| <= |albums|
    ensures forall a :: a in r <==> a in albums && AlbumMatches(t, a, term)
  {
    if albums == [] then []
    else
      var front := albums[..|albums| - 1];
      var a := albums[|albums| - 1];
      assert albums == front + [a];
      MatchingAlbums(t, front, term) + (if AlbumMatches(t, a, term) then [a] else [])
  }

  /** A query that equals part of a title up to letter case finds the song,
      wherever that part sits in the title. */
  lemma TitleMatchInAnyCase(t: Tables, s: Song, before: string, variant: string, after: string, query: string)
    requires s.title == before + variant + after && Lower(variant) == Lower(query)
    ensures SongMatches(t, s, Lower(query))
  {
    VariantContained(before, variant, after, query);
  }

  // ---------------------------------------------------------------------
  // searchSongs
  // ---------------------------------------------------------------------

  /** The songs searchSongs returns: at most 50 matching rows, scanned with
      every column and the three joined names. */
  function SongResults(t: Tables, term: string): (r: seq<SongView>)
    ensures |r| <= SongLimit
  {
    Scanned(t, Take(MatchingSongs(t, t.songs, term), SongLimit), Matched)
  }

  method SearchSongs(t: Tables, term: string, queryFault: bool) returns (r: Result<seq<SongView>>)
    ensures queryFault ==> r == Err(MsgDbError)
    ensures !queryFault ==> r == Ok(SongResults(t, term))
  {
    if queryFault {
      return Err(MsgDbError);
    }
    var rows := Take(MatchingSongs(t, t.songs, term), SongLimit);
    var songs := ScanRows(t, rows, Matched);
    return Ok(songs);
  }

  /** At most 50 songs, each a stored song that is not a personal upload,
      scans, and matches the query in its title, artist or album. */
  lemma SongResultsSpec(t: Tables, term: string)
    ensures |SongResults(t, term)| <= SongLimit
    ensures forall v :: v in SongResults(t, term) ==>
      exists s :: s in t.songs && s.uploadedBy.None? && Scannable(s) && SongMatches(t, s, term)
                  && v == ViewOf(t, s, Matched)
  {
    var m := MatchingSongs(t, t.songs, term);
    var rows := Take(m, SongLimit);
    forall v | v in SongResults(t, term)
      ensures exists s :: s in t.songs && s.uploadedBy.None? && Scannable(s) && SongMatches(t, s, term)
                          && v == ViewOf(t, s, Matched)
    {
      var s :| s in rows && Scannable(s) && v == ViewOf(t, s, Matched);
      var k :| 0 <= k < |rows| && rows[k] == s;
      assert m[k] == s;
    }
  }

  /** Below the limit, every matching song that scans is found. */
  lemma SongResultsComplete(t: Tables, term: string, s: Song)
    requires |MatchingSongs(t, t.songs, term)| <= SongLimit
    requires s in t.songs && s.uploadedBy.None? && SongMatches(t, s, term) && Scannable(s)
    ensures ViewOf(t, s, Matched) in SongResults(t, term)
  {
    assert Take(MatchingSongs(t, t.songs, term), SongLimit) == MatchingSongs(t, t.songs, term);
  }

  // ---------------------------------------------------------------------
  // searchArtists
  // ---------------------------------------------------------------------

  /** Every artists row scans (id and name are NOT NULL, the description
      is a pointer), so the rows come back as the query returns them. */
  function ArtistResults(t: Tables, term: string): seq<Artist> {
    Take(MatchingArtists(t.artists, term), ArtistLimit)
  }

  method SearchArtists(t: Tables, term: string, queryFault: bool) returns (r: Result<seq<Artist>>)
    ensures queryFault ==> r == Err(MsgDbError)
    ensures !queryFault ==> r == Ok(ArtistResults(t, term))
  {
    if queryFault {
      return Err(MsgDbError);
    }
    var rows := Take(MatchingArtists(t.artists, term), ArtistLimit);
    var out: seq<Artist> := [];
    var i := 0;
    while i < |rows|
      invariant 0 <= i <= |rows|
      invariant out == rows[..i]
    {
      out := out + [rows[i]];
      i := i + 1;
    }
    assert rows[..|rows|] == rows;
    return Ok(out);
  }

  lemma ArtistResultsSpec(t: Tables, term: string)
    ensures |ArtistResults(t, term)| <= ArtistLimit
    ensures forall a :: a in ArtistResults(t, term) ==> a in t.artists && Like(Some(a.name), term)
  {
    var m := MatchingArtists(t.artists, term);
    forall a | a in ArtistResults(t, term)
      ensures a in t.artists && Like(Some(a.name), term)
    {
      var k :| 0 <= k < |ArtistResults(t, term)| && ArtistResults(t, term)[k] == a;
      assert m[k] == a;
    }
  }

  // ---------------------------------------------------------------------
  // searchAlbums
  // ---------------------------------------------------------------------

  /** An album row as searchAlbums returns it, with the joined artist name. */
  datatype AlbumView = AlbumView(album: Album, artistName: Option<string>)

  /** Album.ArtistID is a plain int: a row with a NULL artist fails to scan
      and is skipped. */
  function ScannedAlbums(t: Tables, rows: seq<Album>): (r: seq<AlbumView>)
    ensures |r| <= |rows|
    ensures forall v :: v in r ==>
      exists a :: a in rows && a.artistId.Some? && v == AlbumView(a, ArtistNameOf(t.artists, a.artistId))
    ensures forall a :: a in rows && a.artistId.Some? ==> AlbumView(a, ArtistNameOf(t.artists, a.artistId)) in r
  {
    if rows == [] then []
    else
      var front := rows[..|rows| - 1];
      var a := rows[|rows| - 1];
      assert rows == front + [a];
      ScannedAlbums(t, front) + (if a.artistId.Some? then [AlbumView(a, ArtistNameOf(t.artists, a.artistId))] else [])
  }

  function AlbumResults(t: Tables, term: string): seq<AlbumView> {
    ScannedAlbums(t, Take(MatchingAlbums(t, t.albums, term), AlbumLimit))
  }

  method SearchAlbums(t: Tables, term: string, queryFault: bool) returns (r: Result<seq<AlbumView>>)
    ensures queryFault ==> r == Err(MsgDbError)
    ensures !queryFault ==> r == Ok(AlbumResults(t, term))
  {
    if queryFault {
      return Err(MsgDbError);
    }
    var rows := Take(MatchingAlbums(t, t.albums, term), AlbumLimit);
    var out: seq<AlbumView> := [];
    var i := 0;
    while i < |rows|
      invariant 0 <= i <= |rows|
      invariant out == ScannedAlbums(t, rows[..i])
    {
      var a := rows[i];
      assert rows[..i + 1][..i] == rows[..i];
      if a.artistId.Some? {
        out := out + [AlbumView(a, ArtistNameOf(t.artists, a.artistId))];
      }
      i := i + 1;
    }
    assert rows[..|rows|] == rows;
    return Ok(out);
  }

  lemma AlbumResultsSpec(t: Tables, term: string)
    ensures |AlbumResults(t, term)| <= AlbumLimit
    ensures forall v :: v in AlbumResults(t, term) ==>
      v.album in t.albums && v.album.artistId.Some? && AlbumMatches(t, v.album, term)
      && v.artistName == ArtistNameOf(t.artists, v.album.artistId)
  {
    var m := MatchingAlbums(t, t.albums, term);
    var rows := Take(m, AlbumLimit);
    forall v | v in AlbumResults(t, term)
      ensures v.album in t.albums && v.album.artistId.Some? && AlbumMatches(t, v.album, term)
              && v.artistName == ArtistNameOf(t.artists, v.album.artistId)
    {
      var a :| a in rows && a.artistId.Some? && v == AlbumView(a, ArtistNameOf(t.artists, a.artistId));
      var k :| 0 <= k < |rows| && rows[k] == a;
      assert m[k] == a;
    }
  }

  // ---------------------------------------------------------------------
  // FullTextSearch
  // ---------------------------------------------------------------------

  datatype SearchResult = SearchResult(
    songs: seq<SongView>, artists: seq<Artist>, albums: seq<AlbumView>, playlists: seq<Playlists.Playlist>)

  /** Which of the three sub-queries fail. */
  datatype SearchFaults = SearchFaults(songs: bool, artists: bool, albums: bool)

  /** FullTextSearch: an empty query returns four empty lists without a
      query; otherwise each sub-search that fails leaves its list empty,
      the others are still filled, and no error is ever returned. The
      playlists list is never filled. */
  method FullTextSearch(t: Tables, query: string, faults: SearchFaults) returns (r: SearchResult)
    ensures query == "" ==> r == SearchResult([], [], [], [])
    ensures query != "" ==> r.songs == (if faults.songs then [] else SongResults(t, Lower(query)))
    ensures query != "" ==> r.artists == (if faults.artists then [] else ArtistResults(t, Lower(query)))
    ensures query != "" ==> r.albums == (if faults.albums then [] else AlbumResults(t, Lower(query)))
    ensures r.playlists == []
  {
    r := SearchResult([], [], [], []);
    if query == "" {
      return;
    }
    var term := Lower(query);
    var songs := SearchSongs(t, term, faults.songs);
    if songs.Ok? {
      r := r.(songs := songs.value);
    }
    var artists := SearchArtists(t, term, faults.artists);
    if artists.Ok? {
      r := r.(artists := artists.value);
    }
    var albums := SearchAlbums(t, term, faults.albums);
    if albums.Ok? {
      r := r.(albums := albums.value);
    }
  }

  // ---------------------------------------------------------------------
  // GetSongsByCategory
  // ---------------------------------------------------------------------

  /** WHERE s.category_id = ?: a NULL category never equals the id. */
  function InCategoryRows(rows: seq<Song>, categoryId: int): (r: seq<Song>)
    ensures |r| <= |rows|
    ensures forall s :: s in r <==> s in rows && s.categoryId == Some(categoryId)
  {
    if rows == [] then []
    else
      var front := rows[..|rows| - 1];
      var s := rows[|rows| - 1];
      assert rows == front + [s];
      InCategoryRows(front, categoryId) + (if s.categoryId == Some(categoryId) then [s] else [])
  }

  /** Filtering keeps the rows' relative order. */
  lemma {:induction false} InCategoryKeepsOrder(rows: seq<Song>, categoryId: int)
    requires IdsDecreasing(rows)
    ensures IdsDecreasing(InCategoryRows(rows, categoryId))
  {
    if rows != [] {
      var front := rows[..|rows| - 1];
      var s := rows[|rows| - 1];
      assert IdsDecreasing(front);
      InCategoryKeepsOrder(front, categoryId);
      var f := InCategoryRows(front, categoryId);
      if s.categoryId == Some(categoryId) {
        var r := f + [s];
        forall i, j | 0 <= i < j < |r|
          ensures r[i].id > r[j].id
        {
          assert r[i] == f[i] && f[i] in f;
          var k :| 0 <= k < |front| && front[k] == f[i];
          assert rows[k] == front[k];
          if j < |f| {
            assert r[j] == f[j];
          }
        }
      }
    }
  }

  /** The songs GetSongsByCategory returns: at most 100 catalogue songs of
      the category, newest first, with the artist name. */
  function CategorySongs(t: Tables, categoryId: int): (r: seq<SongView>)
    ensures |r| <= CategorySongLimit
  {
    Scanned(t, Take(InCategoryRows(Catalogue(t.songs), categoryId), CategorySongLimit), InCategory)
  }

  method GetSongsByCategory(t: Tables, categoryId: int, queryFault: bool) returns (r: Result<seq<SongView>>)
    ensures queryFault ==> r == Err(MsgDbError)
    ensures !queryFault ==> r == Ok(CategorySongs(t, categoryId))
  {
    if queryFault {
      return Err(MsgDbError);
    }
    var rows := Take(InCategoryRows(Catalogue(t.songs), categoryId), CategorySongLimit);
    var songs := ScanRows(t, rows, InCategory);
    return Ok(songs);
  }

  /** At most 100 songs, each a stored song of that category that is not a
      personal upload, newest first. */
  lemma CategorySongsSpec(t: Tables, next: nat, categoryId: int)
    requires SongIdsOrdered(t.songs, next)
    ensures |CategorySongs(t, categoryId)| <= CategorySongLimit
    ensures forall v :: v in CategorySongs(t, categoryId) ==>
      exists s :: s in t.songs && s.uploadedBy.None? && s.categoryId == Some(categoryId) && Scannable(s)
                  && v == ViewOf(t, s, InCategory)
    ensures NewestFirst(CategorySongs(t, categoryId))
  {
    var cat := Catalogue(t.songs);
    var f := InCategoryRows(cat, categoryId);
    var rows := Take(f, CategorySongLimit);
    CatalogueNewestFirst(t.songs, next);
    InCategoryKeepsOrder(cat, categoryId);
    TakeDecreasing(f, CategorySongLimit);
    ScannedKeepsOrder(t, rows, InCategory);
    forall v | v in CategorySongs(t, categoryId)
      ensures exists s :: s in t.songs && s.uploadedBy.None? && s.categoryId == Some(categoryId) && Scannable(s)
                          && v == ViewOf(t, s, InCategory)
    {
      var s :| s in rows && Scannable(s) && v == ViewOf(t, s, InCategory);
      var k :| 0 <= k < |rows| && rows[k] == s;
      assert f[k] == s;
    }
  }

  // ---------------------------------------------------------------------
  // GetAllCategories: ORDER BY name
  // ---------------------------------------------------------------------

  /** SQLite's BINARY collation compares the UTF-8 bytes, which orders
      strings as their code points do: lexicographic order on characters. */
  predicate NameLe(a: string, b: string)
    decreases |a|
  {
    a == [] || (b != [] && (a[0] < b[0] || (a[0] == b[0] && NameLe(a[1..], b[1..]))))
  }

  lemma {:induction false} NameLeTotal(a: string, b: string)
    ensures NameLe(a, b) || NameLe(b, a)
    decreases |a|
  {
    if a != [] && b != [] && a[0] == b[0] {
      NameLeTotal(a[1..], b[1..]);
    }
  }

  lemma {:induction false} NameLeTrans(a: string, b: string, c: string)
    requires NameLe(a, b) && NameLe(b, c)
    ensures NameLe(a, c)
    decreases |a|
  {
    if a != [] && b != [] && c != [] && a[0] == b[0] && b[0] == c[0] {
      NameLeTrans(a[1..], b[1..], c[1..]);
    }
  }

  /** Names in both orders are the same name. */
  lemma {:induction false} NameLeAntisymmetric(a: string, b: string)
    requires NameLe(a, b) && NameLe(b, a)
    ensures a == b
    decreases |a|
  {
    if a != [] {
      NameLeAntisymmetric(a[1..], b[1..]);
      assert a == [a[0]] + a[1..] && b == [b[0]] + b[1..];
    }
  }

  predicate SortedByName(cs: seq<Category>) {
    forall i, j :: 0 <= i < j < |cs| ==> NameLe(cs[i].name, cs[j].name)
  }

  function InsertByName(c: Category, cs: seq<Category>): (r: seq<Category>)
    ensures multiset(r) == multiset(cs) + multiset{c}
  {
    if cs == [] then [c]
    else if NameLe(c.name, cs[0].name) then [c] + cs
    else
      var rest := InsertByName(c, cs[1..]);
      assert cs == [cs[0]] + cs[1..];
      [cs[0]] + rest
  }

  /** The rows of the categories table in name order. */
  function SortByName(cs: seq<Category>): (r: seq<Category>)
    ensures multiset(r) == multiset(cs)
  {
    if cs == [] then []
    else
      assert cs == [cs[0]] + cs[1..];
      InsertByName(cs[0], SortByName(cs[1..]))
  }

  lemma {:induction false} InsertByNameSorted(c: Category, cs: seq<Category>)
    requires SortedByName(cs)
    ensures SortedByName(InsertByName(c, cs))
    decreases |cs|
  {
    if cs == [] {
    } else if NameLe(c.name, cs[0].name) {
      var r := [c] + cs;
      forall i, j | 0 <= i < j < |r|
        ensures NameLe(r[i].name, r[j].name)
      {
        if i == 0 {
          if j > 1 {
            NameLeTrans(c.name, cs[0].name, cs[j - 1].name);
          }
        } else {
          assert r[i] == cs[i - 1] && r[j] == cs[j - 1];
        }
      }
    } else {
      NameLeTotal(c.name, cs[0].name);
      var tail := cs[1..];
      assert SortedByName(tail) by {
        forall i, j | 0 <= i < j < |tail|
          ensures NameLe(tail[i].name, tail[j].name)
        {
          assert tail[i] == cs[i + 1] && tail[j] == cs[j + 1];
        }
      }
      InsertByNameSorted(c, tail);
      var rest := InsertByName(c, tail);
      var r := [cs[0]] + rest;
      forall i, j | 0 <= i < j < |r|
        ensures NameLe(r[i].name, r[j].name)
      {
        if i == 0 {
          var x := rest[j - 1];
          assert x in multiset(rest);
          assert x == c || x in multiset(tail);
          if x != c {
            var k :| 0 <= k < |tail| && tail[k] == x;
            assert cs[k + 1] == x;
          }
        } else {
          assert r[i] == rest[i - 1] && r[j] == rest[j - 1];
        }
      }
    }
  }

  lemma {:induction false} SortByNameSorted(cs: seq<Category>)
    ensures SortedByName(SortByName(cs))
  {
    if cs != [] {
      SortByNameSorted(cs[1..]);
      InsertByNameSorted(cs[0], SortByName(cs[1..]));
    }
  }

  /** GetAllCategories. Every categories row scans (id and name are NOT
      NULL, the description is a pointer), so the loop keeps them all. */
  method GetAllCategories(t: Tables, queryFault: bool) returns (r: Result<seq<Category>>)
    ensures queryFault ==> r == Err(MsgDbError)
    ensures !queryFault ==> r == Ok(SortByName(t.categories))
  {
    if queryFault {
      return Err(MsgDbError);
    }
    var rows := SortByName(t.categories);
    var out: seq<Category> := [];
    var i := 0;
    while i < |rows|
      invariant 0 <= i <= |rows|
      invariant out == rows[..i]
    {
      out := out + [rows[i]];
      i := i + 1;
    }
    assert rows[..|rows|] == rows;
    return Ok(out);
  }

  /** The categories come back ordered by name, each row exactly once. */
  lemma AllCategoriesSpec(t: Tables)
    ensures SortedByName(SortByName(t.categories))
    ensures multiset(SortByName(t.categories)) == multiset(t.categories)
  {
    SortByNameSorted(t.categories);
  }
}
