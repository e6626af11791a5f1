/** PlaylistVideoService: the owner of a playlist's channel adds visible
    videos to the playlist, moves them and takes them out again. */
module PlaylistVideos {
  import opened Common
  import opened Entities
  import opened Tables
  import opened PlaylistVideoRepository
  import Videos
  import Playlists
  import Query

  /** getById: the playlist entry, or "Not found!". */
  function GetById(rows: map<Id, PlaylistVideo>, id: Id): (r: Result<PlaylistVideo>)
    ensures r.Ok? <==> id in rows
    ensures r.Ok? ==> r.value == rows[id]
    ensures r.Err? ==> r.error == NotFound("Not found!")
  {
    if id in rows then Ok(rows[id]) else Err(NotFound("Not found!"))
  }

  /** getByPlaylistIdAndVideoId: the entry putting that video into that
      playlist; its absence is a bad request, not a missing item. */
  function GetByPlaylistIdAndVideoId(rows: map<Id, PlaylistVideo>, playlistId: Id, videoId: Id): (r: Result<Id>)
    requires OnePerPair(rows)
    ensures r.Ok? <==> exists k :: k in rows && rows[k].playlistId == playlistId && rows[k].videoId == videoId
    ensures r.Ok? ==> r.value in rows && rows[r.value].playlistId == playlistId && rows[r.value].videoId == videoId
    ensures r.Err? ==> r.error == BadRequest("Not found!")
  {
    match FindByPlaylistIdAndVideoId(rows, playlistId, videoId)
    case Some(k) => Ok(k)
    case None => Err(BadRequest("Not found!"))
  }

  /** The checks create and delete share, in their order: the video is
      visible, the playlist exists, and the caller owns its channel. */
  function PlaylistCheck(
    videos: map<Id, Video>, playlists: map<Id, Playlist>, channels: map<Id, Channel>,
    videoId: Id, playlistId: Id, profileId: Id): (r: Result<()>)
    ensures r.Ok? <==> (videoId in videos && videos[videoId].visible
                        && Playlists.OwnedPlaylist(playlists, channels, playlistId, profileId).Ok?)
    ensures Videos.GetById(videos, videoId).Err? ==> r == Err(NotFound("Not found!"))
    ensures Videos.GetById(videos, videoId).Ok? ==>
      r.Err? == Playlists.OwnedPlaylist(playlists, channels, playlistId, profileId).Err?
      && (r.Err? ==> r.error == Playlists.OwnedPlaylist(playlists, channels, playlistId, profileId).error)
  {
    match Videos.GetById(videos, videoId)
    case Err(e) => Err(e)
    case Ok(_) =>
      match Playlists.OwnedPlaylist(playlists, channels, playlistId, profileId)
      case Err(e) => Err(e)
      case Ok(_) => Ok(())
  }

  /** `entity.getPlaylist().getChannel().getProfileId()`: the owner of the
      entry's playlist. Both joins are lazy: a missing playlist or channel
      row fails when its proxy is first read. */
  function OwnerOf(playlists: map<Id, Playlist>, channels: map<Id, Channel>, e: PlaylistVideo): (r: Result<Id>)
    ensures r.Ok? <==> e.playlistId in playlists && playlists[e.playlistId].channelId in channels
    ensures r.Ok? ==> r.value == channels[playlists[e.playlistId].channelId].profileId
    ensures r.Err? ==> r.error == EntityNotFound
  {
    if e.playlistId !in playlists then Err(EntityNotFound)
    else Playlists.OwnerOf(channels, playlists[e.playlistId])
  }

  /** A new entry of a playlist adds one to its count. */
  lemma {:induction false} CountAfterInsert(rows: map<Id, PlaylistVideo>, id: Id, entry: PlaylistVideo)
    requires id !in rows
    ensures GetVideoCountByPlaylistId(rows[id := entry], entry.playlistId) == GetVideoCountByPlaylistId(rows, entry.playlistId) + 1
  {
    assert RowsOfPlaylist(rows[id := entry], entry.playlistId) == RowsOfPlaylist(rows, entry.playlistId) + {id};
  }

  /** Removing an entry of a playlist takes one from its count. */
  lemma {:induction false} CountAfterDelete(rows: map<Id, PlaylistVideo>, id: Id)
    requires id in rows
    ensures GetVideoCountByPlaylistId(rows - {id}, rows[id].playlistId) == GetVideoCountByPlaylistId(rows, rows[id].playlistId) - 1
  {
    assert RowsOfPlaylist(rows - {id}, rows[id].playlistId) == RowsOfPlaylist(rows, rows[id].playlistId) - {id};
  }

  class PlaylistVideoService {
    const entries: Table<PlaylistVideo>
    const playlists: Table<Playlist>
    const videos: Table<Video>
    const channels: Table<Channel>

    ghost predicate Valid()
      reads this, entries
    {
      entries.Valid() && (forall a, b :: entries.clash(a, b) == PlaylistVideosClash(a, b))
    }

    constructor (entries: Table<PlaylistVideo>, playlists: Table<Playlist>, videos: Table<Video>, channels: Table<Channel>)
      requires entries.Valid() && (forall a, b :: entries.clash(a, b) == PlaylistVideosClash(a, b))
      ensures Valid()
      ensures this.entries == entries && this.playlists == playlists && this.videos == videos && this.channels == channels
    {
      this.entries := entries;
      this.playlists := playlists;
      this.videos := videos;
      this.channels := channels;
    }

    /** create: after the checks, one entry for the video at position
        `orderNum`. A video already in the playlist breaks the table's
        constraint, and nothing catches that. */
    method Create(videoId: Id, playlistId: Id, orderNum: int, profileId: Id) returns (r: Result<Id>)
      requires Valid()
      modifies entries
      ensures Valid()
      ensures PlaylistCheck(videos.rows, playlists.rows, channels.rows, videoId, playlistId, profileId).Err? ==>
        r == Err(PlaylistCheck(videos.rows, playlists.rows, channels.rows, videoId, playlistId, profileId).error)
        && entries.rows == old(entries.rows)
      ensures PlaylistCheck(videos.rows, playlists.rows, channels.rows, videoId, playlistId, profileId).Ok? ==>
        var listed := exists k :: k in old(entries.rows) && old(entries.rows)[k].videoId == videoId
                                  && old(entries.rows)[k].playlistId == playlistId;
        && (listed ==> r == Err(IntegrityViolation) && entries.rows == old(entries.rows))
        && (!listed ==> (r.Ok? && r.value !in old(entries.rows)
                         && entries.rows == old(entries.rows)[r.value := PlaylistVideo(videoId, playlistId, orderNum, None)]))
    {
      var check := PlaylistCheck(videos.rows, playlists.rows, channels.rows, videoId, playlistId, profileId);
      if check.Err? {
        return Err(check.error);
      }
      var entity := PlaylistVideo(videoId, playlistId, orderNum, None);
      r := entries.Insert(entity);
      if r.Err? {
        var k :| k in entries.rows && (entries.clash(entries.rows[k], entity) || entries.clash(entity, entries.rows[k]));
        assert entries.rows[k].videoId == videoId && entries.rows[k].playlistId == playlistId;
      }
    }

    /** update: the owner moves the entry to position `orderNum`; the entry
        is stamped with `now`. */
    method Update(entryId: Id, orderNum: int, profileId: Id, now: Instant) returns (r: Result<PlaylistVideo>)
      requires Valid()
      modifies entries
      ensures Valid()
      ensures entryId !in old(entries.rows) ==>
        r == Err(NotFound("Not found!")) && entries.rows == old(entries.rows)
      ensures entryId in old(entries.rows) && OwnerOf(playlists.rows, channels.rows, old(entries.rows)[entryId]).Err? ==>
        r == Err(EntityNotFound) && entries.rows == old(entries.rows)
      ensures entryId in old(entries.rows) && OwnerOf(playlists.rows, channels.rows, old(entries.rows)[entryId]).Ok? ==>
        var updated := old(entries.rows)[entryId].(orderNum := orderNum, updatedDate := Some(now));
        if OwnerOf(playlists.rows, channels.rows, old(entries.rows)[entryId]).value == profileId
        then r == Ok(updated) && entries.rows == old(entries.rows)[entryId := updated]
        else r == Err(NotAccess) && entries.rows == old(entries.rows)
    {
      var entity := GetById(entries.rows, entryId);
      if entity.Err? {
        return Err(entity.error);
      }
      var owner := OwnerOf(playlists.rows, channels.rows, entity.value);
      if owner.Err? {
        return Err(owner.error);
      }
      if owner.value != profileId {
        return Err(NotAccess);
      }
      var updated := entity.value.(orderNum := orderNum, updatedDate := Some(now));
      var _ := entries.Update(entryId, updated);
      r := Ok(updated);
    }

    /** delete: after the checks, removes the entry of that video in that
        playlist; a video not in the playlist is a bad request. */
    method Delete(videoId: Id, playlistId: Id, profileId: Id) returns (r: Result<bool>)
      requires Valid()
      modifies entries
      ensures Valid()
      ensures PlaylistCheck(videos.rows, playlists.rows, channels.rows, videoId, playlistId, profileId).Err? ==>
        r == Err(PlaylistCheck(videos.rows, playlists.rows, channels.rows, videoId, playlistId, profileId).error)
        && entries.rows == old(entries.rows)
      ensures PlaylistCheck(videos.rows, playlists.rows, channels.rows, videoId, playlistId, profileId).Ok? ==>
        var listed := exists k :: k in old(entries.rows) && old(entries.rows)[k].videoId == videoId
                                  && old(entries.rows)[k].playlistId == playlistId;
        && (listed ==> r == Ok(true) && (exists k :: k in old(entries.rows) && old(entries.rows)[k].videoId == videoId
                                          && old(entries.rows)[k].playlistId == playlistId
                                          && entries.rows == old(entries.rows) - {k}))
        && (!listed ==> r == Err(BadRequest("Not found!")) && entries.rows == old(entries.rows))
    {
      var check := PlaylistCheck(videos.rows, playlists.rows, channels.rows, videoId, playlistId, profileId);
      if check.Err? {
        return Err(check.error);
      }
      var entity := GetByPlaylistIdAndVideoId(entries.rows, playlistId, videoId);
      if entity.Err? {
        return Err(entity.error);
      }
      entries.Delete(entity.value);
      r := Ok(true);
    }

    /** videosByPlaylistId: the entries of an existing playlist, by position,
        lowest first. */
    method VideosByPlaylistId(playlistId: Id) returns (r: Result<seq<Id>>)
      requires Valid()
      ensures r.Err? <==> playlistId !in playlists.rows
      ensures r.Err? ==> r.error == NotFound("Not found!")
      ensures r.Ok? ==>
        && (forall k :: k in r.value <==> k in RowsOfPlaylist(entries.rows, playlistId))
        && Query.Distinct(r.value) && Query.SortedBy(r.value, entries.rows, OrderNumAscending)
        && |r.value| == GetVideoCountByPlaylistId(entries.rows, playlistId)
    {
      var playlist := Playlists.GetById(playlists.rows, playlistId);
      if playlist.Err? {
        return Err(playlist.error);
      }
      var ids := FindAllByPlaylistId(entries.rows, playlistId, OrderNumAscending);
      r := Ok(ids);
    }
  }
}
