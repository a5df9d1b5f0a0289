/** The catalogue tables (artists, albums, categories, songs, uploads) and
    the two services that write them: the admin upload and delete path, and
    a user's own uploads and profile image. */
module Catalog {
  import opened Wrappers
  import opened Strs
  import Auth
  import Config

  const MaxSongBytes: int := 50 * 1024 * 1024
  const MaxImageBytes: int := 5 * 1024 * 1024

  const MsgMissingMetadata := "missing metadata. Title and artist are required"
  const MsgAdminBadFormat := "invalid format. Only MP4, WAV, and MP3 allowed"
  const MsgSongTooLarge := "file too large. Maximum size is 50MB"
  const MsgImageTooLarge := "file too large. Maximum size is 5MB"
  const MsgImageBadType := "unsupported file type. Only JPG and PNG allowed"
  const MsgUserBadFormat := "unsupported file format. Only MP4, WAV, and MP3 allowed"
  const MsgSongNotFound := "song not found"
  /** Stand for a database driver error and a file-system error, whose own
      texts are passed on. */
  const MsgDbError := "database error"
  const MsgIoError := "file system error"

  const UnknownArtist := "Unknown Artist"
  const UnknownArtistDescription := "User uploaded content"

  datatype Artist = Artist(id: nat, name: string, description: Option<string>)

  datatype Album = Album(id: nat, title: string, artistId: Option<int>)

  datatype Category = Category(id: nat, name: string, description: Option<string>)

  /** A songs row. `duration` is nullable in the schema; rows are kept in
      insertion order, which is also created_at order. */
  datatype Song = Song(
    id: nat, title: string, artistId: Option<int>, albumId: Option<int>, categoryId: Option<int>,
    duration: Option<int>, filePath: string, format: string, uploadedBy: Option<int>)

  datatype Upload = Upload(id: nat, userId: int, originalFilename: string, storedPath: string, fileSizeBytes: int)

  /** The multipart file header: the client's file name and the byte size. */
  datatype FileHeader = FileHeader(filename: string, size: int)

  /** What the read-only services see of the database. */
  datatype Tables = Tables(artists: seq<Artist>, albums: seq<Album>, categories: seq<Category>, songs: seq<Song>)

  /** The case-sensitive extension lists of the two services. */
  predicate IsAudioExt(ext: string) {
    ext == ".mp4" || ext == ".wav" || ext == ".mp3"
  }

  predicate IsImageExt(ext: string) {
    ext == ".jpg" || ext == ".jpeg" || ext == ".png"
  }

  /** The stored format: the extension without its dot (`ext[1:]`). */
  function Format(ext: string): (f: string)
    requires ext != []
    ensures [ext[0]] + f == ext
  {
    ext[1..]
  }

  // ---------------------------------------------------------------------
  // Admin UploadSong: the validation ladder
  // ---------------------------------------------------------------------

  /** Metadata first, then the extension, then the size; the accepted
      extension is the result. */
  function CheckAdminUpload(file: FileHeader, title: string, artistName: string): (r: Result<string>)
    ensures title == "" || artistName == "" ==> r == Err(MsgMissingMetadata)
    ensures title != "" && artistName != "" && !IsAudioExt(Ext(file.filename)) ==> r == Err(MsgAdminBadFormat)
    ensures title != "" && artistName != "" && IsAudioExt(Ext(file.filename)) && file.size > MaxSongBytes ==>
      r == Err(MsgSongTooLarge)
    ensures r.Ok? <==>
      title != "" && artistName != "" && IsAudioExt(Ext(file.filename)) && file.size <= MaxSongBytes
    ensures r.Ok? ==> r.value == Ext(file.filename) && HasSuffix(file.filename, r.value) && IsAudioExt(r.value)
  {
    if title == "" || artistName == "" then Err(MsgMissingMetadata)
    else
      var ext := Ext(file.filename);
      if !IsAudioExt(ext) then Err(MsgAdminBadFormat)
      else if file.size > MaxSongBytes then Err(MsgSongTooLarge)
      else Ok(ext)
  }

  /** The admin check is case-sensitive, unlike the configured allow-list:
      "SONG.MP3" passes the allow-list and is refused here. */
  lemma AdminExtensionIsCaseSensitive()
    ensures Config.IsAllowedAudioType(Config.LoadConfig(map[]), "SONG.MP3")
    ensures CheckAdminUpload(FileHeader("SONG.MP3", 1), "t", "a") == Err(MsgAdminBadFormat)
  {
    Config.UpperCaseAudioAccepted();
    AdminRejectsUpperMp3();
  }

  lemma AdminRejectsUpperMp3()
    ensures CheckAdminUpload(FileHeader("SONG.MP3", 1), "t", "a") == Err(MsgAdminBadFormat)
  {
    ExtOfUpperMp3();
  }

  lemma ExtOfUpperMp3()
    ensures Ext("SONG.MP3") == ".MP3"
  {
    assert Ext("SONG.") == ".";
    assert "SONG.M"[..5] == "SONG.";
    assert Ext("SONG.M") == ".M";
    assert "SONG.MP"[..6] == "SONG.M";
    assert Ext("SONG.MP") == ".MP";
    assert "SONG.MP3"[..7] == "SONG.MP";
    assert Ext("SONG.MP3") == ".MP3";
  }

  /** An artist with this id whose name equals `name` up to case. */
  predicate ArtistNamed(artists: seq<Artist>, id: int, name: string) {
    exists k :: 0 <= k < |artists| && artists[k].id == id && Lower(artists[k].name) == Lower(name)
  }

  /** An album with this id, of this artist, whose title equals `title` up to case. */
  predicate AlbumNamed(albums: seq<Album>, id: int, title: string, artistId: int) {
    exists k :: 0 <= k < |albums| && albums[k].id == id && albums[k].artistId == Some(artistId)
                && Lower(albums[k].title) == Lower(title)
  }

  predicate IsDuplicate(s: Song, artists: seq<Artist>, title: string, artistName: string) {
    Lower(s.title) == Lower(title) && s.artistId.Some? && ArtistNamed(artists, s.artistId.value, artistName)
  }

  /** The duplicate query: the first song of that title and artist, both
      compared in lower case. */
  function FindDuplicate(songs: seq<Song>, artists: seq<Artist>, title: string, artistName: string, from: nat): (r: Option<nat>)
    requires from <= |songs|
    ensures r.Some? ==> from <= r.value < |songs| && IsDuplicate(songs[r.value], artists, title, artistName)
    ensures r.None? <==> forall k :: from <= k < |songs| ==> !IsDuplicate(songs[k], artists, title, artistName)
    decreases |songs| - from
  {
    if from == |songs| then None
    else if IsDuplicate(songs[from], artists, title, artistName) then Some(from)
    else FindDuplicate(songs, artists, title, artistName, from + 1)
  }

  function DuplicateMessage(id: nat): string {
    "duplicate song detected. Song ID " + Itoa(id) + " already exists with this title and artist"
  }

  /** A stored song is found again for any letter case of its title and
      artist name. */
  lemma DuplicateFoundInAnyCase(songs: seq<Song>, artists: seq<Artist>, i: nat, title: string, artistName: string)
    requires i < |songs| && songs[i].artistId.Some?
    requires Lower(songs[i].title) == Lower(title)
    requires ArtistNamed(artists, songs[i].artistId.value, artistName)
    ensures FindDuplicate(songs, artists, title, artistName, 0).Some?
  {
    assert IsDuplicate(songs[i], artists, title, artistName);
  }

  /** The ladder followed by the duplicate query; a failing duplicate query
      skips the check. The accepted extension is the result. */
  function AdminPrecheck(file: FileHeader, title: string, artistName: string,
                         songs: seq<Song>, artists: seq<Artist>, queryFault: bool): (r: Result<string>)
    ensures CheckAdminUpload(file, title, artistName).Err? ==> r == CheckAdminUpload(file, title, artistName)
    ensures CheckAdminUpload(file, title, artistName).Ok? && !queryFault &&
            FindDuplicate(songs, artists, title, artistName, 0).Some? ==>
      r == Err(DuplicateMessage(songs[FindDuplicate(songs, artists, title, artistName, 0).value].id))
    ensures r.Ok? <==>
      CheckAdminUpload(file, title, artistName).Ok? && (queryFault || FindDuplicate(songs, artists, title, artistName, 0).None?)
    ensures r.Ok? ==> r == CheckAdminUpload(file, title, artistName)
  {
    match CheckAdminUpload(file, title, artistName)
    case Err(m) => Err(m)
    case Ok(ext) =>
      if queryFault then Ok(ext)
      else
        match FindDuplicate(songs, artists, title, artistName, 0)
        case Some(i) => Err(DuplicateMessage(songs[i].id))
        case None => Ok(ext)
  }

  // ---------------------------------------------------------------------
  // getOrCreateArtist / getOrCreateAlbum lookups
  // ---------------------------------------------------------------------

  /** `SELECT id FROM artists WHERE LOWER(name) = LOWER(?)`: the first match. */
  function FindArtist(artists: seq<Artist>, name: string, from: nat): (r: Option<nat>)
    requires from <= |artists|
    ensures r.Some? ==>
      && from <= r.value < |artists| && Lower(artists[r.value].name) == Lower(name)
      && forall k :: from <= k < r.value ==> Lower(artists[k].name) != Lower(name)
    ensures r.None? <==> forall k :: from <= k < |artists| ==> Lower(artists[k].name) != Lower(name)
    decreases |artists| - from
  {
    if from == |artists| then None
    else if Lower(artists[from].name) == Lower(name) then Some(from)
    else FindArtist(artists, name, from + 1)
  }

  /** Once an artist is created, every case variant of its name finds it. */
  lemma {:induction false} FindArtistAtEnd(artists: seq<Artist>, x: Artist, other: string, from: nat)
    requires from <= |artists|
    requires forall k :: from <= k < |artists| ==> Lower(artists[k].name) != Lower(other)
    requires Lower(x.name) == Lower(other)
    ensures FindArtist(artists + [x], other, from) == Some(|artists|)
    decreases |artists| - from
  {
    var a := artists + [x];
    if from == |artists| {
      assert a[from] == x;
    } else {
      assert a[from] == artists[from];
      FindArtistAtEnd(artists, x, other, from + 1);
    }
  }

  lemma CaseVariantsShareArtist(artists: seq<Artist>, name: string, other: string, id: nat, d: Option<string>)
    requires FindArtist(artists, name, 0).None? && Lower(other) == Lower(name)
    ensures FindArtist(artists + [Artist(id, name, d)], other, 0) == Some(|artists|)
  {
    FindArtistAtEnd(artists, Artist(id, name, d), other, 0);
  }

  /** `SELECT id FROM albums WHERE LOWER(title) = LOWER(?) AND artist_id = ?`. */
  function FindAlbum(albums: seq<Album>, title: string, artistId: int, from: nat): (r: Option<nat>)
    requires from <= |albums|
    ensures r.Some? ==>
      && from <= r.value < |albums|
      && Lower(albums[r.value].title) == Lower(title) && albums[r.value].artistId == Some(artistId)
    ensures r.None? <==>
      forall k :: from <= k < |albums| ==> !(Lower(albums[k].title) == Lower(title) && albums[k].artistId == Some(artistId))
    decreases |albums| - from
  {
    if from == |albums| then None
    else if Lower(albums[from].title) == Lower(title) && albums[from].artistId == Some(artistId) then Some(from)
    else FindAlbum(albums, title, artistId, from + 1)
  }

  /** `SELECT id FROM artists WHERE name = ?` for the placeholder artist:
      an exact, case-sensitive match. */
  function FindExactArtist(artists: seq<Artist>, name: string, from: nat): (r: Option<nat>)
    requires from <= |artists|
    ensures r.Some? ==> from <= r.value < |artists| && artists[r.value].name == name
    ensures r.None? <==> forall k :: from <= k < |artists| ==> artists[k].name != name
    decreases |artists| - from
  {
    if from == |artists| then None
    else if artists[from].name == name then Some(from)
    else FindExactArtist(artists, name, from + 1)
  }

  predicate SongExists(songs: seq<Song>, id: int) {
    exists k :: 0 <= k < |songs| && songs[k].id == id
  }

  /** `DELETE FROM songs WHERE id = ?`. */
  function WithoutSong(songs: seq<Song>, id: int): (r: seq<Song>)
    ensures forall s :: s in r <==> s in songs && s.id != id
    ensures !SongExists(r, id)
  {
    if songs == [] then []
    else
      var front := songs[..|songs| - 1];
      var s := songs[|songs| - 1];
      assert songs == front + [s];
      var r := WithoutSong(front, id);
      var r' := if s.id == id then r else r + [s];
      assert !SongExists(r', id) by {
        forall k | 0 <= k < |r'|
          ensures r'[k].id != id
        {
          assert r'[k] in r';
        }
      }
      r'
  }

  // ---------------------------------------------------------------------
  // User service: derived names and paths
  // ---------------------------------------------------------------------

  /** `filename[:len(filename)-len(ext)]`: the name without its extension. */
  function UploadTitle(filename: string): (t: string)
    ensures t + Ext(filename) == filename
  {
    var ext := Ext(filename);
    assert filename[|filename| - |ext|..] == ext;
    filename[..|filename| - |ext|]
  }

  /** filepath.Join("media", "uploads", "<id>", name). */
  function UserUploadPath(userId: int, storedName: string): string {
    "media/uploads/" + Itoa(userId) + "/" + storedName
  }

  /** filepath.Join("images", "profiles", "<id>", name). */
  function ProfileImagePath(userId: int, storedName: string): string {
    "images/profiles/" + Itoa(userId) + "/" + storedName
  }

  /** The digits of a user id never hold a '/'. */
  lemma ItoaNoSlash(n: int)
    ensures '/' !in Itoa(n)
  {
    var ds := if n < 0 then NatDigits(-n) else NatDigits(n);
    assert forall i :: 0 <= i < |ds| ==> IsDigit(ds[i]);
    if n < 0 {
      assert Itoa(n) == "-" + ds;
      assert forall i :: 0 <= i < |Itoa(n)| ==> Itoa(n)[i] == '-' || IsDigit(Itoa(n)[i]);
    }
  }

  /** The profile path names the uploading user's own directory: its
      "/"-parts are images, profiles, the id and the stored name. */
  lemma ProfilePathParts(userId: int, storedName: string)
    requires '/' !in storedName
    ensures Split(ProfileImagePath(userId, storedName), '/') == ["images", "profiles", Itoa(userId), storedName]
  {
    var id := Itoa(userId);
    ItoaNoSlash(userId);
    var tail := id + ['/'] + storedName;
    SplitConcat(id, storedName, '/');
    SplitNoSep(storedName, '/');
    assert Split(tail, '/') == [id, storedName];
    var mid := "profiles" + ['/'] + tail;
    SplitConcat("profiles", tail, '/');
    SplitConcat("images", mid, '/');
    ProfilePathShape(tail);
    assert ProfileImagePath(userId, storedName) == "images/profiles/" + tail;
    assert "images" + ['/'] + mid == "images/profiles/" + tail;
  }

  lemma ProfilePathShape(x: string)
    ensures "images/profiles/" + x == "images" + ['/'] + ("profiles" + ['/'] + x)
  {
  }

  /** UPDATE users SET profile_image_path = ? WHERE id = ?. */
  function SetProfileImage(t: Auth.UserTable, id: int, path: string): (t': Auth.UserTable)
    ensures |t'.rows| == |t.rows| && t'.nextId == t.nextId
    ensures forall i :: 0 <= i < |t.rows| ==>
      t'.rows[i] == (if t.rows[i].id == id then t.rows[i].(profileImagePath := Some(path)) else t.rows[i])
  {
    Auth.UserTable(seq(|t.rows|, i requires 0 <= i < |t.rows| =>
      if t.rows[i].id == id then t.rows[i].(profileImagePath := Some(path)) else t.rows[i]), t.nextId)
  }

  datatype ProfileUpdated = ProfileUpdated(result: Result<()>, users: Auth.UserTable)

  /** UploadProfileImage: size before type, then the file write and the
      UPDATE. `storedName` is the generated UUID name plus the extension;
      an UPDATE that matches no row is not an error. */
  function UploadProfileImage(users: Auth.UserTable, userId: int, file: FileHeader, uuid: string,
                              ioFault: bool, updateFault: bool): (out: ProfileUpdated)
    ensures file.size > MaxImageBytes ==> out == ProfileUpdated(Err(MsgImageTooLarge), users)
    ensures file.size <= MaxImageBytes && !IsImageExt(Ext(file.filename)) ==>
      out == ProfileUpdated(Err(MsgImageBadType), users)
    ensures out.result.Err? ==> out.users == users
    ensures out.result.Ok? <==>
      file.size <= MaxImageBytes && IsImageExt(Ext(file.filename)) && !ioFault && !updateFault
    ensures out.result.Ok? ==>
      && |out.users.rows| == |users.rows| && out.users.nextId == users.nextId
      && forall i :: 0 <= i < |users.rows| ==>
           if users.rows[i].id == userId
           then out.users.rows[i].profileImagePath == Some(ProfileImagePath(userId, uuid + Ext(file.filename)))
                && out.users.rows[i].(profileImagePath := users.rows[i].profileImagePath) == users.rows[i]
           else out.users.rows[i] == users.rows[i]
  {
    if file.size > MaxImageBytes then ProfileUpdated(Err(MsgImageTooLarge), users)
    else
      var ext := Ext(file.filename);
      if !IsImageExt(ext) then ProfileUpdated(Err(MsgImageBadType), users)
      else if ioFault then ProfileUpdated(Err(MsgIoError), users)
      else if updateFault then ProfileUpdated(Err(MsgDbError), users)
      else ProfileUpdated(Ok(()), SetProfileImage(users, userId, ProfileImagePath(userId, uuid + ext)))
  }

  /** The failure points of the admin upload, in the order they are met. */
  datatype AdminFaults = AdminFaults(
    duplicateQuery: bool, artistLookup: bool, artistInsert: bool,
    albumLookup: bool, albumInsert: bool, fileWrite: bool, songInsert: bool)

  /** The failure points of a user's song upload. The error of the songs
      INSERT is ignored by the source. */
  datatype UserFaults = UserFaults(fileWrite: bool, uploadInsert: bool, artistLookup: bool, songInsert: bool)

  // ---------------------------------------------------------------------
  // The writable tables
  // ---------------------------------------------------------------------

  predicate ArtistIdsBelow(artists: seq<Artist>, next: nat) {
    forall i :: 0 <= i < |artists| ==> artists[i].id < next
  }

  predicate AlbumIdsBelow(albums: seq<Album>, next: nat) {
    forall i :: 0 <= i < |albums| ==> albums[i].id < next
  }

  /** Song ids grow with insertion order and stay below the next id. */
  predicate SongIdsOrdered(songs: seq<Song>, next: nat) {
    && (forall i :: 0 <= i < |songs| ==> songs[i].id < next)
    && (forall i, j :: 0 <= i < j < |songs| ==> songs[i].id < songs[j].id)
  }

  lemma SongsOrderedFront(songs: seq<Song>, next: nat)
    requires songs != [] && SongIdsOrdered(songs, next)
    ensures SongIdsOrdered(songs[..|songs| - 1], next)
    ensures forall s :: s in songs[..|songs| - 1] ==> s.id < songs[|songs| - 1].id
  {
    var front := songs[..|songs| - 1];
    forall s | s in front
      ensures s.id < songs[|songs| - 1].id
    {
      var k :| 0 <= k < |front| && front[k] == s;
      assert songs[k] == s;
    }
  }

  lemma AppendAboveKeepsSongIds(r: seq<Song>, s: Song, next: nat)
    requires SongIdsOrdered(r, next) && s.id < next
    requires forall x :: x in r ==> x.id < s.id
    ensures SongIdsOrdered(r + [s], next)
  {
    var r' := r + [s];
    forall i, j | 0 <= i < j < |r'|
      ensures r'[i].id < r'[j].id
    {
      assert r'[i] == r[i] && r[i] in r;
      if j < |r| { assert r'[j] == r[j]; }
    }
  }

  /** Deleting a song keeps the ids of the rest in order. */
  lemma {:induction false} WithoutSongKeepsOrder(songs: seq<Song>, next: nat, id: int)
    requires SongIdsOrdered(songs, next)
    ensures SongIdsOrdered(WithoutSong(songs, id), next)
  {
    if songs != [] {
      var front := songs[..|songs| - 1];
      var s := songs[|songs| - 1];
      SongsOrderedFront(songs, next);
      WithoutSongKeepsOrder(front, next, id);
      var r := WithoutSong(front, id);
      if s.id != id {
        forall x | x in r
          ensures x.id < s.id
        {
          assert x in front;
        }
        AppendAboveKeepsSongIds(r, s, next);
      }
    }
  }

  predicate UploadIdsBelow(uploads: seq<Upload>, next: nat) {
    forall i :: 0 <= i < |uploads| ==> uploads[i].id < next
  }

  class Library {
    var artists: seq<Artist>
    var albums: seq<Album>
    var categories: seq<Category>
    var songs: seq<Song>
    var uploads: seq<Upload>
    var nextArtistId: nat
    var nextAlbumId: nat
    var nextSongId: nat
    var nextUploadId: nat

    /** Every stored id is below its table's next AUTOINCREMENT id. */
    ghost predicate Valid()
      reads this
    {
      && ArtistIdsBelow(artists, nextArtistId) && AlbumIdsBelow(albums, nextAlbumId)
      && SongIdsOrdered(songs, nextSongId) && UploadIdsBelow(uploads, nextUploadId)
    }

    constructor(categories: seq<Category>)
      ensures Valid()
      ensures this.categories == categories
      ensures artists == [] && albums == [] && songs == [] && uploads == []
    {
      artists := [];
      albums := [];
      this.categories := categories;
      songs := [];
      uploads := [];
      nextArtistId := 1;
      nextAlbumId := 1;
      nextSongId := 1;
      nextUploadId := 1;
    }

    function Snapshot(): Tables
      reads this
    {
      Tables(artists, albums, categories, songs)
    }

    /** getOrCreateArtist. A failing lookup, like a missing artist, leads
        to the INSERT. */
    method GetOrCreateArtist(name: string, lookupFault: bool, insertFault: bool) returns (r: Result<nat>)
      requires Valid()
      modifies this`artists, this`nextArtistId
      ensures Valid()
      ensures !lookupFault && FindArtist(old(artists), name, 0).Some? ==>
        r == Ok(old(artists)[FindArtist(old(artists), name, 0).value].id) && artists == old(artists)
      ensures (lookupFault || FindArtist(old(artists), name, 0).None?) && insertFault ==>
        r == Err(MsgDbError) && artists == old(artists)
      ensures (lookupFault || FindArtist(old(artists), name, 0).None?) && !insertFault ==>
        && r == Ok(old(nextArtistId))
        && artists == old(artists) + [Artist(old(nextArtistId), name, None)]
      ensures r.Err? || artists == old(artists) ==> nextArtistId == old(nextArtistId)
      ensures r.Ok? ==> ArtistNamed(artists, r.value, name)
      ensures |old(artists)| <= |artists| <= |old(artists)| + 1 && artists[..|old(artists)|] == old(artists)
    {
      var found := FindArtist(artists, name, 0);
      if !lookupFault && found.Some? {
        assert artists[..|artists|] == artists;
        return Ok(artists[found.value].id);
      }
      if insertFault {
        assert artists[..|artists|] == artists;
        return Err(MsgDbError);
      }
      var a := Artist(nextArtistId, name, None);
      assert (artists + [a])[|artists|] == a;
      artists := artists + [a];
      nextArtistId := nextArtistId + 1;
      return Ok(a.id);
    }

    /** getOrCreateAlbum, keyed on the lower-cased title and the artist. */
    method GetOrCreateAlbum(title: string, artistId: nat, lookupFault: bool, insertFault: bool) returns (r: Result<nat>)
      requires Valid()
      modifies this`albums, this`nextAlbumId
      ensures Valid()
      ensures !lookupFault && FindAlbum(old(albums), title, artistId, 0).Some? ==>
        r == Ok(old(albums)[FindAlbum(old(albums), title, artistId, 0).value].id) && albums == old(albums)
      ensures (lookupFault || FindAlbum(old(albums), title, artistId, 0).None?) && insertFault ==>
        r == Err(MsgDbError) && albums == old(albums)
      ensures (lookupFault || FindAlbum(old(albums), title, artistId, 0).None?) && !insertFault ==>
        && r == Ok(old(nextAlbumId))
        && albums == old(albums) + [Album(old(nextAlbumId), title, Some(artistId))]
      ensures r.Ok? ==> AlbumNamed(albums, r.value, title, artistId)
      ensures |old(albums)| <= |albums| <= |old(albums)| + 1 && albums[..|old(albums)|] == old(albums)
    {
      var found := FindAlbum(albums, title, artistId, 0);
      if !lookupFault && found.Some? {
        assert albums[..|albums|] == albums;
        return Ok(albums[found.value].id);
      }
      if insertFault {
        assert albums[..|albums|] == albums;
        return Err(MsgDbError);
      }
      var a := Album(nextAlbumId, title, Some(artistId));
      assert (albums + [a])[|albums|] == a;
      albums := albums + [a];
      nextAlbumId := nextAlbumId + 1;
      return Ok(a.id);
    }

    /** INSERT INTO songs: the row takes the next id. */
    method InsertSong(song: Song)
      requires Valid() && song.id == nextSongId
      modifies this`songs, this`nextSongId
      ensures Valid()
      ensures songs == old(songs) + [song] && nextSongId == old(nextSongId) + 1
    {
      forall x | x in songs
        ensures x.id < song.id
      {
      }
      AppendAboveKeepsSongIds(songs, song, nextSongId + 1);
      songs := songs + [song];
      nextSongId := nextSongId + 1;
    }

    /** The artist id, created if needed, then the album id: an album is
        looked up or created only for a non-empty title, and its failure
        leaves the song without an album. */
    method ResolveArtistAndAlbum(artistName: string, albumTitle: string, f: AdminFaults)
      returns (r: Result<(nat, Option<int>)>)
      requires Valid()
      modifies this`artists, this`nextArtistId, this`albums, this`nextAlbumId
      ensures Valid()
      ensures r.Err? <==> (f.artistLookup || FindArtist(old(artists), artistName, 0).None?) && f.artistInsert
      ensures r.Err? ==> r == Err(MsgDbError) && artists == old(artists) && albums == old(albums)
      ensures r.Ok? ==> ArtistNamed(artists, r.value.0, artistName)
      ensures r.Ok? && (albumTitle == "" || (f.albumInsert && (f.albumLookup || FindAlbum(old(albums), albumTitle, r.value.0, 0).None?))) ==>
        r.value.1.None?
      ensures r.Ok? && albumTitle != "" && !(f.albumInsert && (f.albumLookup || FindAlbum(old(albums), albumTitle, r.value.0, 0).None?)) ==>
        r.value.1.Some?
      ensures r.Ok? && r.value.1.Some? ==>
        AlbumNamed(albums, r.value.1.value, albumTitle, r.value.0)
      ensures |old(artists)| <= |artists| <= |old(artists)| + 1 && artists[..|old(artists)|] == old(artists)
      ensures |old(albums)| <= |albums| <= |old(albums)| + 1 && albums[..|old(albums)|] == old(albums)
    {
      var artistId := GetOrCreateArtist(artistName, f.artistLookup, f.artistInsert);
      if artistId.Err? {
        return Err(artistId.msg);
      }
      var albumId: Option<int> := None;
      assert albums[..|albums|] == albums;
      if albumTitle != "" {
        var a := GetOrCreateAlbum(albumTitle, artistId.value, f.albumLookup, f.albumInsert);
        if a.Ok? {
          albumId := Some(a.value);
        }
      }
      return Ok((artistId.value, albumId));
    }

    /** The admin UploadSong. `uuid` is the generated file name. Artists
        and albums created before a later failure stay; the songs table
        changes only on success. */
    method AdminUploadSong(file: FileHeader, title: string, artistName: string, albumTitle: string,
                           categoryId: int, duration: int, uuid: string, f: AdminFaults)
      returns (r: Result<Song>)
      requires Valid()
      modifies this`artists, this`nextArtistId, this`albums, this`nextAlbumId, this`songs, this`nextSongId
      ensures Valid()
      ensures AdminPrecheck(file, title, artistName, old(songs), old(artists), f.duplicateQuery).Err? ==>
        && r == Err(AdminPrecheck(file, title, artistName, old(songs), old(artists), f.duplicateQuery).msg)
        && Snapshot() == old(Snapshot())
      ensures r.Err? ==> songs == old(songs) && nextSongId == old(nextSongId)
      ensures AdminPrecheck(file, title, artistName, old(songs), old(artists), f.duplicateQuery).Ok? ==>
        var artistFails := (f.artistLookup || FindArtist(old(artists), artistName, 0).None?) && f.artistInsert;
        && (artistFails ==> r == Err(MsgDbError))
        && (!artistFails && f.fileWrite ==> r == Err(MsgIoError))
        && (!artistFails && !f.fileWrite && f.songInsert ==> r == Err(MsgDbError))
      ensures r.Ok? <==>
        && AdminPrecheck(file, title, artistName, old(songs), old(artists), f.duplicateQuery).Ok?
        && !((f.artistLookup || FindArtist(old(artists), artistName, 0).None?) && f.artistInsert)
        && !f.fileWrite && !f.songInsert
      ensures r.Ok? ==>
        && AdminPrecheck(file, title, artistName, old(songs), old(artists), f.duplicateQuery).Ok?
        && !f.fileWrite && !f.songInsert
        && var ext := AdminPrecheck(file, title, artistName, old(songs), old(artists), f.duplicateQuery).value;
        && songs == old(songs) + [r.value] && r.value.id == old(nextSongId) && r.value.title == title
        && r.value.filePath == "media/songs/" + uuid + ext && r.value.format == Format(ext)
        && r.value.categoryId == (if categoryId > 0 then Some(categoryId) else None)
        && r.value.duration == Some(duration) && r.value.uploadedBy.None?
        && (albumTitle == "" ==> r.value.albumId.None?)
        && r.value.artistId.Some? && ArtistNamed(artists, r.value.artistId.value, artistName)
        && (albumTitle != "" && !(f.albumInsert && (f.albumLookup || FindAlbum(old(albums), albumTitle, r.value.artistId.value, 0).None?))
            ==> r.value.albumId.Some?)
        && (r.value.albumId.Some? ==> AlbumNamed(albums, r.value.albumId.value, albumTitle, r.value.artistId.value))
      ensures |old(artists)| <= |artists| <= |old(artists)| + 1 && artists[..|old(artists)|] == old(artists)
      ensures |old(albums)| <= |albums| <= |old(albums)| + 1 && albums[..|old(albums)|] == old(albums)
    {
      var check := AdminPrecheck(file, title, artistName, songs, artists, f.duplicateQuery);
      assert artists[..|artists|] == artists && albums[..|albums|] == albums;
      if check.Err? {
        return Err(check.msg);
      }
      var ext := check.value;
      var ids := ResolveArtistAndAlbum(artistName, albumTitle, f);
      if ids.Err? {
        return Err(ids.msg);
      }
      if f.fileWrite {
        return Err(MsgIoError);
      }
      var catId := if categoryId > 0 then Some(categoryId) else None;
      if f.songInsert {
        return Err(MsgDbError);
      }
      var song := Song(nextSongId, title, Some(ids.value.0), ids.value.1, catId, Some(duration),
                       "media/songs/" + uuid + ext, Format(ext), None);
      InsertSong(song);
      return Ok(song);
    }

    /** DeleteSong: a missing song and a failing lookup both read as "song
        not found". The file removal is outside the model; its failure
        does not change the result. */
    method DeleteSong(songId: int, queryFault: bool, deleteFault: bool) returns (r: Result<()>)
      requires Valid()
      modifies this`songs
      ensures Valid()
      ensures queryFault || !SongExists(old(songs), songId) ==> r == Err(MsgSongNotFound) && songs == old(songs)
      ensures !queryFault && SongExists(old(songs), songId) && deleteFault ==>
        r == Err(MsgDbError) && songs == old(songs)
      ensures r.Ok? <==> !queryFault && !deleteFault && SongExists(old(songs), songId)
      ensures r.Ok? ==> songs == WithoutSong(old(songs), songId) && !SongExists(songs, songId)
    {
      if queryFault || !SongExists(songs, songId) {
        return Err(MsgSongNotFound);
      }
      if deleteFault {
        return Err(MsgDbError);
      }
      WithoutSongKeepsOrder(songs, nextSongId, songId);
      songs := WithoutSong(songs, songId);
      return Ok(());
    }

    /** The "Unknown Artist" lookup: any lookup error, like a missing row,
        leads to a new placeholder row. */
    method PlaceholderArtist(lookupFault: bool) returns (id: nat)
      requires Valid()
      modifies this`artists, this`nextArtistId
      ensures Valid()
      ensures exists k :: 0 <= k < |artists| && artists[k].id == id && artists[k].name == UnknownArtist
      ensures !lookupFault && FindExactArtist(old(artists), UnknownArtist, 0).Some? ==>
        artists == old(artists) && id == old(artists)[FindExactArtist(old(artists), UnknownArtist, 0).value].id
      ensures lookupFault || FindExactArtist(old(artists), UnknownArtist, 0).None? ==>
        && artists == old(artists) + [Artist(old(nextArtistId), UnknownArtist, Some(UnknownArtistDescription))]
        && id == old(nextArtistId)
    {
      var found := FindExactArtist(artists, UnknownArtist, 0);
      if !lookupFault && found.Some? {
        id := artists[found.value].id;
      } else {
        id := nextArtistId;
        artists := artists + [Artist(nextArtistId, UnknownArtist, Some(UnknownArtistDescription))];
        nextArtistId := nextArtistId + 1;
        assert artists[|artists| - 1].id == id;
      }
    }

    /** A user's UploadSong: size, then type, then the file and the uploads
        row; then a songs row under the "Unknown Artist" placeholder, whose
        INSERT error is ignored. */
    method UserUploadSong(userId: int, file: FileHeader, uuid: string, f: UserFaults) returns (r: Result<Upload>)
      requires Valid()
      modifies this`uploads, this`nextUploadId, this`artists, this`nextArtistId, this`songs, this`nextSongId
      ensures Valid()
      ensures file.size > MaxSongBytes ==> r == Err(MsgSongTooLarge)
      ensures file.size <= MaxSongBytes && !IsAudioExt(Ext(file.filename)) ==> r == Err(MsgUserBadFormat)
      ensures r.Err? ==> Snapshot() == old(Snapshot()) && uploads == old(uploads)
      ensures r.Ok? <==>
        file.size <= MaxSongBytes && IsAudioExt(Ext(file.filename)) && !f.fileWrite && !f.uploadInsert
      ensures r.Ok? ==>
        && r.value == Upload(old(nextUploadId), userId, file.filename,
                             UserUploadPath(userId, uuid + Ext(file.filename)), file.size)
        && uploads == old(uploads) + [r.value]
      ensures r.Ok? && f.songInsert ==> songs == old(songs)
      ensures r.Ok? && !f.songInsert ==>
        && |songs| == |old(songs)| + 1 && songs[..|old(songs)|] == old(songs)
        && var s := songs[|old(songs)|];
        && s.id == old(nextSongId) && s.title == UploadTitle(file.filename) && s.format == Format(Ext(file.filename))
        && s.filePath == r.value.storedPath && s.uploadedBy == Some(userId) && s.duration == Some(0)
        && s.albumId.None? && s.categoryId.None?
        && s.artistId.Some? && exists k :: 0 <= k < |artists| && artists[k].id == s.artistId.value
                                          && artists[k].name == UnknownArtist
      ensures r.Ok? ==> |old(artists)| <= |artists| <= |old(artists)| + 1 && artists[..|old(artists)|] == old(artists)
    {
      if file.size > MaxSongBytes {
        return Err(MsgSongTooLarge);
      }
      var ext := Ext(file.filename);
      if !IsAudioExt(ext) {
        return Err(MsgUserBadFormat);
      }
      if f.fileWrite {
        return Err(MsgIoError);
      }
      if f.uploadInsert {
        return Err(MsgDbError);
      }
      var path := UserUploadPath(userId, uuid + ext);
      var upload := Upload(nextUploadId, userId, file.filename, path, file.size);
      uploads := uploads + [upload];
      nextUploadId := nextUploadId + 1;
      assert artists[..|artists|] == artists;
      var artistId := PlaceholderArtist(f.artistLookup);
      if !f.songInsert {
        var s := Song(nextSongId, UploadTitle(file.filename), Some(artistId), None, None, Some(0),
                      path, Format(ext), Some(userId));
        InsertSong(s);
        assert songs[..|songs| - 1] == old(songs);
      }
      return Ok(upload);
    }
  }
}
