/** The playlist service over the playlists and playlist_songs tables, with
    the UNIQUE(user_id, name) and UNIQUE(playlist_id, song_id) constraints.
    Foreign keys are not enforced by the database connection, so deleting a
    playlist leaves its playlist_songs rows in place. */
module Playlists {
  import opened Wrappers

  const MsgEmptyName := "enter valid playlist name"
  const MsgPlaylistExists := "Playlist already exists"
  const MsgNoPlaylist := "no playlist found"
  const MsgUnauthorized := "unauthorized"
  const MsgAlreadyInPlaylist := "Song already in the playlist"
  const MsgNotInPlaylist := "song not found in playlist"
  /** Stands for a database driver error, whose own text is passed on. */
  const MsgDbError := "database error"

  datatype Playlist = Playlist(id: nat, userId: int, name: string, description: Option<string>)

  datatype PlaylistSong = PlaylistSong(id: nat, playlistId: int, songId: int, queueNumber: int)

  /** One row of GetUserPlaylists: the playlist and COUNT(ps.id). */
  datatype PlaylistView = PlaylistView(playlist: Playlist, songCount: nat)

  // ---------------------------------------------------------------------
  // Table invariants
  // ---------------------------------------------------------------------

  /** AUTOINCREMENT ids: below the next id and increasing with insertion. */
  predicate IdsOrdered(ps: seq<Playlist>, next: nat) {
    && (forall i :: 0 <= i < |ps| ==> ps[i].id < next)
    && (forall i, j :: 0 <= i < j < |ps| ==> ps[i].id < ps[j].id)
  }

  /** UNIQUE(user_id, name). */
  predicate NamesUnique(ps: seq<Playlist>) {
    forall i, j :: 0 <= i < j < |ps| ==> ps[i].userId != ps[j].userId || ps[i].name != ps[j].name
  }

  predicate EntryIdsOrdered(es: seq<PlaylistSong>, next: nat) {
    && (forall i :: 0 <= i < |es| ==> es[i].id < next)
    && (forall i, j :: 0 <= i < j < |es| ==> es[i].id < es[j].id)
  }

  /** UNIQUE(playlist_id, song_id). */
  predicate PairsUnique(es: seq<PlaylistSong>) {
    forall i, j :: 0 <= i < j < |es| ==>
      es[i].playlistId != es[j].playlistId || es[i].songId != es[j].songId
  }

  /** Within one playlist, queue numbers increase in insertion order. */
  predicate QueueOrdered(es: seq<PlaylistSong>) {
    forall i, j :: 0 <= i < j < |es| && es[i].playlistId == es[j].playlistId ==>
      es[i].queueNumber < es[j].queueNumber
  }

  predicate NameTaken(ps: seq<Playlist>, userId: int, name: string) {
    exists i :: 0 <= i < |ps| && ps[i].userId == userId && ps[i].name == name
  }

  /** A playlist with this id owned by this user exists. */
  predicate Owns(ps: seq<Playlist>, id: int, userId: int) {
    exists i :: 0 <= i < |ps| && ps[i].id == id && ps[i].userId == userId
  }

  predicate HasPair(es: seq<PlaylistSong>, playlistId: int, songId: int) {
    exists i :: 0 <= i < |es| && es[i].playlistId == playlistId && es[i].songId == songId
  }

  // ---------------------------------------------------------------------
  // Queries over the tables
  // ---------------------------------------------------------------------

  /** `SELECT user_id FROM playlists WHERE id = ?`: the first row's owner. */
  function OwnerOf(ps: seq<Playlist>, id: int): (r: Option<int>)
    ensures r.None? <==> forall i :: 0 <= i < |ps| ==> ps[i].id != id
    ensures r.Some? ==> exists i :: 0 <= i < |ps| && ps[i].id == id && ps[i].userId == r.value
  {
    if ps == [] then None
    else if ps[0].id == id then Some(ps[0].userId)
    else
      var r := OwnerOf(ps[1..], id);
      assert r.Some? ==> exists i :: 1 <= i < |ps| && ps[i].id == id && ps[i].userId == r.value by {
        if r.Some? {
          var k :| 0 <= k < |ps[1..]| && ps[1..][k].id == id && ps[1..][k].userId == r.value;
          assert ps[k + 1] == ps[1..][k];
        }
      }
      r
  }

  /** With unique ids, the owner found is the owner of the one row with that id. */
  lemma {:induction false} OwnerOfUnique(ps: seq<Playlist>, next: nat, i: nat)
    requires IdsOrdered(ps, next) && i < |ps|
    ensures OwnerOf(ps, ps[i].id) == Some(ps[i].userId)
    decreases i
  {
    if i > 0 {
      assert ps[0].id < ps[i].id;
      assert IdsOrdered(ps[1..], next);
      OwnerOfUnique(ps[1..], next, i - 1);
      assert ps[1..][i - 1] == ps[i];
    }
  }

  /** A just-created playlist is found, with its creator as owner. */
  lemma CreatedIsOwned(ps: seq<Playlist>, next: nat, userId: int, name: string, d: Option<string>)
    requires IdsOrdered(ps, next)
    ensures OwnerOf(ps + [Playlist(next, userId, name, d)], next) == Some(userId)
    ensures Owns(ps + [Playlist(next, userId, name, d)], next, userId)
  {
    var ps' := ps + [Playlist(next, userId, name, d)];
    assert IdsOrdered(ps', next + 1);
    OwnerOfUnique(ps', next + 1, |ps|);
    assert ps'[|ps|].id == next;
  }

  /** MAX(queue_number) over the playlist's rows, or NULL. */
  function MaxQueue(es: seq<PlaylistSong>, playlistId: int): (r: Option<int>)
    ensures r.None? <==> forall i :: 0 <= i < |es| ==> es[i].playlistId != playlistId
    ensures r.Some? ==>
      && (exists i :: 0 <= i < |es| && es[i].playlistId == playlistId && es[i].queueNumber == r.value)
      && (forall i :: 0 <= i < |es| && es[i].playlistId == playlistId ==> es[i].queueNumber <= r.value)
  {
    if es == [] then None
    else
      var front := es[..|es| - 1];
      var m := MaxQueue(front, playlistId);
      var e := es[|es| - 1];
      assert forall i :: 0 <= i < |front| ==> front[i] == es[i];
      if e.playlistId != playlistId then m
      else if m.None? || m.value < e.queueNumber then Some(e.queueNumber)
      else m
  }

  /** The queue number AddSong assigns. A failing MAX query leaves the
      NULL in place, so the number is then 0. */
  function NextQueue(es: seq<PlaylistSong>, playlistId: int, maxFault: bool): (q: int)
    ensures !maxFault ==> forall i :: 0 <= i < |es| && es[i].playlistId == playlistId ==> es[i].queueNumber < q
    ensures (maxFault || forall i :: 0 <= i < |es| ==> es[i].playlistId != playlistId) ==> q == 0
  {
    var m := if maxFault then None else MaxQueue(es, playlistId);
    if m.Some? then m.value + 1 else 0
  }

  /** Appending a new pair with the next id keeps the id order and
      UNIQUE(playlist_id, song_id), whatever its queue number. */
  lemma AppendKeepsEntryTable(es: seq<PlaylistSong>, next: nat, playlistId: int, songId: int, q: int)
    requires EntryIdsOrdered(es, next) && PairsUnique(es) && !HasPair(es, playlistId, songId)
    ensures var es' := es + [PlaylistSong(next, playlistId, songId, q)];
      EntryIdsOrdered(es', next + 1) && PairsUnique(es')
  {
  }

  /** Appending with the assigned number keeps every table invariant. */
  lemma AppendKeepsInvariants(es: seq<PlaylistSong>, next: nat, playlistId: int, songId: int)
    requires EntryIdsOrdered(es, next) && PairsUnique(es) && QueueOrdered(es)
    requires !HasPair(es, playlistId, songId)
    ensures var es' := es + [PlaylistSong(next, playlistId, songId, NextQueue(es, playlistId, false))];
      EntryIdsOrdered(es', next + 1) && PairsUnique(es') && QueueOrdered(es')
  {
  }

  /** Ignoring a failed MAX query can give a second entry number 0. */
  lemma IgnoredMaxErrorRepeatsQueueNumber()
    ensures var es := [PlaylistSong(1, 7, 3, 0)];
      !QueueOrdered(es + [PlaylistSong(2, 7, 4, NextQueue(es, 7, true))])
  {
    var es := [PlaylistSong(1, 7, 3, 0)];
    var es' := es + [PlaylistSong(2, 7, 4, NextQueue(es, 7, true))];
    assert es'[0].queueNumber == es'[1].queueNumber;
  }

  /** `DELETE FROM playlist_songs WHERE playlist_id = ? AND song_id = ?`. */
  function WithoutPair(es: seq<PlaylistSong>, playlistId: int, songId: int): (r: seq<PlaylistSong>)
    ensures forall e :: e in r <==> e in es && !(e.playlistId == playlistId && e.songId == songId)
    ensures |r| == |es| <==> !HasPair(es, playlistId, songId)
    ensures |r| <= |es|
  {
    if es == [] then []
    else
      var front := es[..|es| - 1];
      var e := es[|es| - 1];
      assert es == front + [e];
      var r := WithoutPair(front, playlistId, songId);
      assert HasPair(es, playlistId, songId) <==>
        HasPair(front, playlistId, songId) || (e.playlistId == playlistId && e.songId == songId) by {
        if HasPair(es, playlistId, songId) {
          var k :| 0 <= k < |es| && es[k].playlistId == playlistId && es[k].songId == songId;
          if k < |front| { assert front[k] == es[k]; }
        }
        if HasPair(front, playlistId, songId) {
          var k :| 0 <= k < |front| && front[k].playlistId == playlistId && front[k].songId == songId;
          assert es[k] == front[k];
        }
      }
      if e.playlistId == playlistId && e.songId == songId then r else r + [e]
  }

  /** Every row left by the DELETE is an earlier row of the table. */
  lemma RemainingFromFront(es: seq<PlaylistSong>, r: seq<PlaylistSong>, x: PlaylistSong)
    requires es != [] && x in r
    requires forall e :: e in r ==> e in es[..|es| - 1]
    ensures exists k :: 0 <= k < |es| - 1 && es[k] == x
  {
    var front := es[..|es| - 1];
    var k :| 0 <= k < |front| && front[k] == x;
    assert es[k] == front[k];
  }

  /** Removing a pair keeps the order of what remains: queue numbers stay
      increasing within each playlist. */
  lemma {:induction false} WithoutPairKeepsQueueOrder(es: seq<PlaylistSong>, playlistId: int, songId: int)
    requires QueueOrdered(es)
    ensures QueueOrdered(WithoutPair(es, playlistId, songId))
  {
    if es != [] {
      var front := es[..|es| - 1];
      var e := es[|es| - 1];
      assert forall i :: 0 <= i < |front| ==> front[i] == es[i];
      WithoutPairKeepsQueueOrder(front, playlistId, songId);
      var r := WithoutPair(front, playlistId, songId);
      if !(e.playlistId == playlistId && e.songId == songId) {
        forall i | 0 <= i < |r| && r[i].playlistId == e.playlistId
          ensures r[i].queueNumber < e.queueNumber
        {
          assert r[i] in r;
          RemainingFromFront(es, r, r[i]);
        }
        var r' := r + [e];
        forall i, j | 0 <= i < j < |r'| && r'[i].playlistId == r'[j].playlistId
          ensures r'[i].queueNumber < r'[j].queueNumber
        {
          assert r'[i] == r[i];
          if j < |r| { assert r'[j] == r[j]; }
        }
      }
    }
  }

  lemma {:induction false} WithoutPairKeepsIds(es: seq<PlaylistSong>, next: nat, playlistId: int, songId: int)
    requires EntryIdsOrdered(es, next)
    ensures EntryIdsOrdered(WithoutPair(es, playlistId, songId), next)
  {
    if es != [] {
      var front := es[..|es| - 1];
      var e := es[|es| - 1];
      assert forall i :: 0 <= i < |front| ==> front[i] == es[i];
      WithoutPairKeepsIds(front, next, playlistId, songId);
      var r := WithoutPair(front, playlistId, songId);
      if !(e.playlistId == playlistId && e.songId == songId) {
        forall i | 0 <= i < |r|
          ensures r[i].id < e.id
        {
          assert r[i] in r;
          RemainingFromFront(es, r, r[i]);
        }
        var r' := r + [e];
        forall i, j | 0 <= i < j < |r'|
          ensures r'[i].id < r'[j].id
        {
          assert r'[i] == r[i];
          if j < |r| { assert r'[j] == r[j]; }
        }
        assert forall i :: 0 <= i < |r'| ==> r'[i].id < next by {
          forall i | 0 <= i < |r'| ensures r'[i].id < next {
            if i < |r| { assert r'[i] == r[i]; assert r[i] in r; RemainingFromFront(es, r, r[i]); }
          }
        }
      }
    }
  }

  lemma {:induction false} WithoutPairKeepsPairs(es: seq<PlaylistSong>, playlistId: int, songId: int)
    requires PairsUnique(es)
    ensures PairsUnique(WithoutPair(es, playlistId, songId))
  {
    if es != [] {
      var front := es[..|es| - 1];
      var e := es[|es| - 1];
      assert forall i :: 0 <= i < |front| ==> front[i] == es[i];
      WithoutPairKeepsPairs(front, playlistId, songId);
      var r := WithoutPair(front, playlistId, songId);
      if !(e.playlistId == playlistId && e.songId == songId) {
        forall i | 0 <= i < |r|
          ensures r[i].playlistId != e.playlistId || r[i].songId != e.songId
        {
          assert r[i] in r;
          RemainingFromFront(es, r, r[i]);
        }
        var r' := r + [e];
        forall i, j | 0 <= i < j < |r'|
          ensures r'[i].playlistId != r'[j].playlistId || r'[i].songId != r'[j].songId
        {
          assert r'[i] == r[i];
          if j < |r| { assert r'[j] == r[j]; }
        }
      }
    }
  }

  lemma {:induction false} WithoutAbsentPair(es: seq<PlaylistSong>, playlistId: int, songId: int)
    requires !HasPair(es, playlistId, songId)
    ensures WithoutPair(es, playlistId, songId) == es
  {
    if es != [] {
      var front := es[..|es| - 1];
      assert forall i :: 0 <= i < |front| ==> front[i] == es[i];
      WithoutAbsentPair(front, playlistId, songId);
      assert es == front + [es[|es| - 1]];
    }
  }

  /** Adding a song and removing it again restores the entries exactly. */
  lemma AddThenRemove(es: seq<PlaylistSong>, e: PlaylistSong)
    requires !HasPair(es, e.playlistId, e.songId)
    ensures WithoutPair(es + [e], e.playlistId, e.songId) == es
  {
    assert (es + [e])[..|es|] == es;
    WithoutAbsentPair(es, e.playlistId, e.songId);
  }

  /** `DELETE FROM playlists WHERE id = ? AND user_id = ?`. */
  function WithoutPlaylist(ps: seq<Playlist>, id: int, userId: int): (r: seq<Playlist>)
    ensures forall p :: p in r <==> p in ps && !(p.id == id && p.userId == userId)
    ensures |r| == |ps| <==> !Owns(ps, id, userId)
    ensures |r| <= |ps|
  {
    if ps == [] then []
    else
      var front := ps[..|ps| - 1];
      var p := ps[|ps| - 1];
      assert ps == front + [p];
      var r := WithoutPlaylist(front, id, userId);
      assert Owns(ps, id, userId) <==> Owns(front, id, userId) || (p.id == id && p.userId == userId) by {
        if Owns(ps, id, userId) {
          var k :| 0 <= k < |ps| && ps[k].id == id && ps[k].userId == userId;
          if k < |front| { assert front[k] == ps[k]; }
        }
        if Owns(front, id, userId) {
          var k :| 0 <= k < |front| && front[k].id == id && front[k].userId == userId;
          assert ps[k] == front[k];
        }
      }
      if p.id == id && p.userId == userId then r else r + [p]
  }

  /** Every playlist left by the DELETE is an earlier row of the table. */
  lemma PlaylistFromFront(ps: seq<Playlist>, r: seq<Playlist>, x: Playlist)
    requires ps != [] && x in r
    requires forall p :: p in r ==> p in ps[..|ps| - 1]
    ensures exists k :: 0 <= k < |ps| - 1 && ps[k] == x
  {
    var front := ps[..|ps| - 1];
    var k :| 0 <= k < |front| && front[k] == x;
    assert ps[k] == front[k];
  }

  /** After the DELETE the playlist is gone. */
  lemma DeletedIsGone(ps: seq<Playlist>, id: int, userId: int)
    ensures !Owns(WithoutPlaylist(ps, id, userId), id, userId)
  {
    var r := WithoutPlaylist(ps, id, userId);
    forall k | 0 <= k < |r|
      ensures !(r[k].id == id && r[k].userId == userId)
    {
      assert r[k] in r;
    }
  }

  lemma AppendAboveKeepsIds(r: seq<Playlist>, p: Playlist, next: nat)
    requires IdsOrdered(r, next) && p.id < next
    requires forall x :: x in r ==> x.id < p.id
    ensures IdsOrdered(r + [p], next)
  {
    var r' := r + [p];
    forall i, j | 0 <= i < j < |r'|
      ensures r'[i].id < r'[j].id
    {
      assert r'[i] == r[i] && r[i] in r;
      if j < |r| { assert r'[j] == r[j]; }
    }
  }

  lemma {:induction false} WithoutPlaylistKeepsIds(ps: seq<Playlist>, next: nat, id: int, userId: int)
    requires IdsOrdered(ps, next)
    ensures IdsOrdered(WithoutPlaylist(ps, id, userId), next)
  {
    if ps != [] {
      var front := ps[..|ps| - 1];
      var p := ps[|ps| - 1];
      IdsOrderedFront(ps, next);
      WithoutPlaylistKeepsIds(front, next, id, userId);
      var r := WithoutPlaylist(front, id, userId);
      if !(p.id == id && p.userId == userId) {
        AppendAboveKeepsIds(r, p, next);
      }
    }
  }

  lemma {:induction false} WithoutPlaylistKeepsNames(ps: seq<Playlist>, id: int, userId: int)
    requires NamesUnique(ps)
    ensures NamesUnique(WithoutPlaylist(ps, id, userId))
  {
    if ps != [] {
      var front := ps[..|ps| - 1];
      var p := ps[|ps| - 1];
      assert forall i :: 0 <= i < |front| ==> front[i] == ps[i];
      WithoutPlaylistKeepsNames(front, id, userId);
      var r := WithoutPlaylist(front, id, userId);
      if !(p.id == id && p.userId == userId) {
        forall i | 0 <= i < |r|
          ensures r[i].userId != p.userId || r[i].name != p.name
        {
          assert r[i] in r;
          PlaylistFromFront(ps, r, r[i]);
        }
        var r' := r + [p];
        forall i, j | 0 <= i < j < |r'|
          ensures r'[i].userId != r'[j].userId || r'[i].name != r'[j].name
        {
          assert r'[i] == r[i];
          if j < |r| { assert r'[j] == r[j]; }
        }
      }
    }
  }

  /** COUNT(ps.id) for one playlist. */
  function CountSongs(es: seq<PlaylistSong>, playlistId: int): (n: nat)
    ensures n <= |es|
    ensures n == 0 <==> forall i :: 0 <= i < |es| ==> es[i].playlistId != playlistId
  {
    if es == [] then 0
    else
      var front := es[..|es| - 1];
      assert forall i :: 0 <= i < |front| ==> front[i] == es[i];
      CountSongs(front, playlistId) + (if es[|es| - 1].playlistId == playlistId then 1 else 0)
  }

  /** The user's playlists, newest first, each with its song count. */
  function UserPlaylists(ps: seq<Playlist>, es: seq<PlaylistSong>, userId: int): (r: seq<PlaylistView>)
    ensures forall v :: v in r ==>
      v.playlist in ps && v.playlist.userId == userId && v.songCount == CountSongs(es, v.playlist.id)
    ensures forall p :: p in ps && p.userId == userId ==> PlaylistView(p, CountSongs(es, p.id)) in r
    ensures |r| <= |ps|
  {
    if ps == [] then []
    else
      var front := ps[..|ps| - 1];
      var p := ps[|ps| - 1];
      assert ps == front + [p];
      (if p.userId == userId then [PlaylistView(p, CountSongs(es, p.id))] else [])
        + UserPlaylists(front, es, userId)
  }

  lemma IdsOrderedFront(ps: seq<Playlist>, next: nat)
    requires IdsOrdered(ps, next) && ps != []
    ensures IdsOrdered(ps[..|ps| - 1], next)
    ensures forall p :: p in ps[..|ps| - 1] ==> p.id < ps[|ps| - 1].id
  {
    forall p | p in ps[..|ps| - 1]
      ensures p.id < ps[|ps| - 1].id
    {
      var k :| 0 <= k < |ps| - 1 && ps[..|ps| - 1][k] == p;
      assert ps[k] == p;
    }
  }

  /** Ids strictly decrease along the list. */
  predicate NewestFirst(r: seq<PlaylistView>) {
    forall i, j :: 0 <= i < j < |r| ==> r[i].playlist.id > r[j].playlist.id
  }

  lemma PrependNewest(v: PlaylistView, rest: seq<PlaylistView>)
    requires NewestFirst(rest)
    requires forall w :: w in rest ==> w.playlist.id < v.playlist.id
    ensures NewestFirst([v] + rest)
  {
    var r := [v] + rest;
    forall i, j | 0 <= i < j < |r|
      ensures r[i].playlist.id > r[j].playlist.id
    {
      assert r[j] == rest[j - 1] && rest[j - 1] in rest;
      if i > 0 { assert r[i] == rest[i - 1]; }
    }
  }

  /** With ids increasing by insertion, the list is strictly newest first. */
  lemma {:induction false} UserPlaylistsNewestFirst(ps: seq<Playlist>, next: nat, es: seq<PlaylistSong>, userId: int)
    requires IdsOrdered(ps, next)
    ensures NewestFirst(UserPlaylists(ps, es, userId))
  {
    if ps != [] {
      var front := ps[..|ps| - 1];
      var p := ps[|ps| - 1];
      IdsOrderedFront(ps, next);
      UserPlaylistsNewestFirst(front, next, es, userId);
      var rest := UserPlaylists(front, es, userId);
      if p.userId == userId {
        PrependNewest(PlaylistView(p, CountSongs(es, p.id)), rest);
      } else {
        assert UserPlaylists(ps, es, userId) == rest;
      }
    }
  }

  // ---------------------------------------------------------------------
  // The service
  // ---------------------------------------------------------------------

  /** The two tables and their AUTOINCREMENT counters. */
  class PlaylistDb {
    var playlists: seq<Playlist>
    var songs: seq<PlaylistSong>
    var nextPlaylistId: nat
    var nextEntryId: nat

    ghost predicate Valid()
      reads this
    {
      && IdsOrdered(playlists, nextPlaylistId) && NamesUnique(playlists)
      && EntryIdsOrdered(songs, nextEntryId) && PairsUnique(songs)
    }

    constructor()
      ensures Valid() && playlists == [] && songs == []
    {
      playlists := [];
      songs := [];
      nextPlaylistId := 1;
      nextEntryId := 1;
    }

    /** CreatePlaylist: an empty name is refused before the INSERT, and any
        INSERT failure reads as a duplicate. */
    method CreatePlaylist(userId: int, name: string, description: Option<string>, insertFault: bool)
      returns (r: Result<Playlist>)
      requires Valid()
      modifies this
      ensures Valid()
      ensures name == "" ==> r == Err(MsgEmptyName)
      ensures name != "" && (NameTaken(old(playlists), userId, name) || insertFault) ==> r == Err(MsgPlaylistExists)
      ensures r.Err? ==> unchanged(this)
      ensures r.Ok? <==> name != "" && !NameTaken(old(playlists), userId, name) && !insertFault
      ensures r.Ok? ==>
        && r.value == Playlist(old(nextPlaylistId), userId, name, description)
        && playlists == old(playlists) + [r.value] && nextPlaylistId == old(nextPlaylistId) + 1
        && songs == old(songs) && nextEntryId == old(nextEntryId)
    {
      if name == "" {
        return Err(MsgEmptyName);
      }
      if NameTaken(playlists, userId, name) || insertFault {
        return Err(MsgPlaylistExists);
      }
      var p := Playlist(nextPlaylistId, userId, name, description);
      playlists := playlists + [p];
      nextPlaylistId := nextPlaylistId + 1;
      return Ok(p);
    }

    /** GetPlaylistByID: found only when the id and the owner both match;
        any failure is "no playlist found". */
    method GetPlaylistByID(id: int, userId: int, queryFault: bool) returns (r: Result<Playlist>)
      ensures r.Ok? <==> !queryFault && Owns(playlists, id, userId)
      ensures r.Ok? ==> r.value in playlists && r.value.id == id && r.value.userId == userId
      ensures r.Err? ==> r == Err(MsgNoPlaylist)
      ensures r.Ok? && IdsOrdered(playlists, nextPlaylistId) ==>
        forall i :: 0 <= i < |playlists| && playlists[i].id == id ==> r.value == playlists[i]
    {
      if queryFault {
        return Err(MsgNoPlaylist);
      }
      var i := 0;
      while i < |playlists|
        invariant 0 <= i <= |playlists|
        invariant forall k :: 0 <= k < i ==> !(playlists[k].id == id && playlists[k].userId == userId)
      {
        if playlists[i].id == id && playlists[i].userId == userId {
          return Ok(playlists[i]);
        }
        i := i + 1;
      }
      return Err(MsgNoPlaylist);
    }

    /** The MAX(queue_number) query, as a scan of the rows. */
    method MaxQueueNumber(playlistId: int) returns (m: Option<int>)
      ensures m == MaxQueue(songs, playlistId)
    {
      m := None;
      var i := 0;
      while i < |songs|
        invariant 0 <= i <= |songs|
        invariant m == MaxQueue(songs[..i], playlistId)
      {
        assert songs[..i + 1][..i] == songs[..i];
        var e := songs[i];
        if e.playlistId == playlistId && (m.None? || m.value < e.queueNumber) {
          m := Some(e.queueNumber);
        }
        i := i + 1;
      }
      assert songs[..i] == songs;
    }

    /** AddSong: ownership, then the duplicate check, then the next queue
        number. A failing COUNT query skips the duplicate check, and the
        UNIQUE constraint then refuses the INSERT. */
    method AddSong(playlistId: int, songId: int, userId: int,
                   lookupFault: bool, countFault: bool, maxFault: bool, insertFault: bool)
      returns (r: Result<()>)
      requires Valid()
      modifies this
      ensures Valid()
      ensures lookupFault || OwnerOf(old(playlists), playlistId).None? ==> r == Err(MsgNoPlaylist)
      ensures (!lookupFault && OwnerOf(old(playlists), playlistId).Some? &&
               OwnerOf(old(playlists), playlistId).value != userId) ==> r == Err(MsgUnauthorized)
      ensures (!lookupFault && OwnerOf(old(playlists), playlistId) == Some(userId) && !countFault &&
               HasPair(old(songs), playlistId, songId)) ==> r == Err(MsgAlreadyInPlaylist)
      ensures r.Err? ==> unchanged(this)
      ensures r.Ok? <==>
        && !lookupFault && OwnerOf(old(playlists), playlistId) == Some(userId)
        && !HasPair(old(songs), playlistId, songId) && !insertFault
      ensures r.Ok? ==>
        && songs == old(songs) + [PlaylistSong(old(nextEntryId), playlistId, songId,
                                               NextQueue(old(songs), playlistId, maxFault))]
        && nextEntryId == old(nextEntryId) + 1
        && playlists == old(playlists) && nextPlaylistId == old(nextPlaylistId)
      ensures r.Ok? && !maxFault && QueueOrdered(old(songs)) ==> QueueOrdered(songs)
    {
      var owner := OwnerOf(playlists, playlistId);
      if lookupFault || owner.None? {
        return Err(MsgNoPlaylist);
      }
      if owner.value != userId {
        return Err(MsgUnauthorized);
      }
      var present := HasPair(songs, playlistId, songId);
      if !countFault && present {
        return Err(MsgAlreadyInPlaylist);
      }
      var m := MaxQueueNumber(playlistId);
      var queue := if maxFault then 0 else if m.Some? then m.value + 1 else 0;
      if present || insertFault {
        return Err(MsgDbError);
      }
      assert queue == NextQueue(songs, playlistId, maxFault);
      AppendKeepsEntryTable(songs, nextEntryId, playlistId, songId, queue);
      if !maxFault && QueueOrdered(songs) {
        AppendKeepsInvariants(songs, nextEntryId, playlistId, songId);
      }
      songs := songs + [PlaylistSong(nextEntryId, playlistId, songId, queue)];
      nextEntryId := nextEntryId + 1;
      return Ok(());
    }

    /** RemoveSong: the same ownership checks, then the DELETE; no row
        affected is an error. */
    method RemoveSong(playlistId: int, songId: int, userId: int, lookupFault: bool, deleteFault: bool)
      returns (r: Result<()>)
      requires Valid()
      modifies this
      ensures Valid()
      ensures lookupFault || OwnerOf(old(playlists), playlistId).None? ==> r == Err(MsgNoPlaylist)
      ensures (!lookupFault && OwnerOf(old(playlists), playlistId).Some? &&
               OwnerOf(old(playlists), playlistId).value != userId) ==> r == Err(MsgUnauthorized)
      ensures (!lookupFault && OwnerOf(old(playlists), playlistId) == Some(userId) && !deleteFault &&
               !HasPair(old(songs), playlistId, songId)) ==> r == Err(MsgNotInPlaylist)
      ensures r.Err? ==> unchanged(this)
      ensures r.Ok? <==>
        && !lookupFault && !deleteFault && OwnerOf(old(playlists), playlistId) == Some(userId)
        && HasPair(old(songs), playlistId, songId)
      ensures r.Ok? ==>
        && songs == WithoutPair(old(songs), playlistId, songId)
        && playlists == old(playlists) && nextPlaylistId == old(nextPlaylistId) && nextEntryId == old(nextEntryId)
      ensures QueueOrdered(old(songs)) ==> QueueOrdered(songs)
    {
      var owner := OwnerOf(playlists, playlistId);
      if lookupFault || owner.None? {
        return Err(MsgNoPlaylist);
      }
      if owner.value != userId {
        return Err(MsgUnauthorized);
      }
      if deleteFault {
        return Err(MsgDbError);
      }
      var remaining := WithoutPair(songs, playlistId, songId);
      if |remaining| == |songs| {
        return Err(MsgNotInPlaylist);
      }
      WithoutPairKeepsIds(songs, nextEntryId, playlistId, songId);
      WithoutPairKeepsPairs(songs, playlistId, songId);
      if QueueOrdered(songs) {
        WithoutPairKeepsQueueOrder(songs, playlistId, songId);
      }
      songs := remaining;
      return Ok(());
    }

    /** DeletePlaylist: only the owner's playlist goes; its playlist_songs
        rows stay. */
    method DeletePlaylist(playlistId: int, userId: int, deleteFault: bool) returns (r: Result<()>)
      requires Valid()
      modifies this
      ensures Valid()
      ensures deleteFault ==> r == Err(MsgDbError)
      ensures !deleteFault && !Owns(old(playlists), playlistId, userId) ==> r == Err(MsgNoPlaylist)
      ensures r.Err? ==> unchanged(this)
      ensures r.Ok? <==> !deleteFault && Owns(old(playlists), playlistId, userId)
      ensures r.Ok? ==>
        && playlists == WithoutPlaylist(old(playlists), playlistId, userId)
        && !Owns(playlists, playlistId, userId)
        && songs == old(songs) && nextPlaylistId == old(nextPlaylistId) && nextEntryId == old(nextEntryId)
    {
      if deleteFault {
        return Err(MsgDbError);
      }
      var remaining := WithoutPlaylist(playlists, playlistId, userId);
      if |remaining| == |playlists| {
        return Err(MsgNoPlaylist);
      }
      WithoutPlaylistKeepsIds(playlists, nextPlaylistId, playlistId, userId);
      WithoutPlaylistKeepsNames(playlists, playlistId, userId);
      DeletedIsGone(playlists, playlistId, userId);
      playlists := remaining;
      return Ok(());
    }

    /** GetUserPlaylists: a scan that puts each later playlist in front. */
    method GetUserPlaylists(userId: int, queryFault: bool) returns (r: Result<seq<PlaylistView>>)
      ensures queryFault ==> r == Err(MsgDbError)
      ensures !queryFault ==> r == Ok(UserPlaylists(playlists, songs, userId))
    {
      if queryFault {
        return Err(MsgDbError);
      }
      var views := [];
      var i := 0;
      while i < |playlists|
        invariant 0 <= i <= |playlists|
        invariant views == UserPlaylists(playlists[..i], songs, userId)
      {
        assert playlists[..i + 1][..i] == playlists[..i];
        var p := playlists[i];
        if p.userId == userId {
          views := [PlaylistView(p, CountSongs(songs, p.id))] + views;
        }
        i := i + 1;
      }
      assert playlists[..i] == playlists;
      return Ok(views);
    }
  }
}
