/** PlaylistService: playlists of a channel, edited by the channel's owner,
    PUBLIC or PRIVATE, listed by their position `orderNum`. */
module Playlists {
  import opened Common
  import opened Entities
  import opened Tables
  import Profiles
  import Channels
  import Query

  /** getById: the playlist, or "Not found!". */
  function GetById(rows: map<Id, Playlist>, id: Id): (r: Result<Playlist>)
    ensures r.Ok? <==> id in rows
    ensures r.Ok? ==> r.value == rows[id]
    ensures r.Err? ==> r.error == NotFound("Not found!")
  {
    if id in rows then Ok(rows[id]) else Err(NotFound("Not found!"))
  }

  /** `entity.getChannel().getProfileId()`: the owner of the playlist's
      channel. The join is lazy: a missing channel row fails when the proxy
      is first read. */
  function OwnerOf(channels: map<Id, Channel>, p: Playlist): (r: Result<Id>)
    ensures r.Ok? <==> p.channelId in channels
    ensures r.Ok? ==> r.value == channels[p.channelId].profileId
    ensures r.Err? ==> r.error == EntityNotFound
  {
    if p.channelId in channels then Ok(channels[p.channelId].profileId) else Err(EntityNotFound)
  }

  /** The guard of updateAbout and delete: the playlist exists and the
      caller owns its channel. */
  function OwnedPlaylist(playlists: map<Id, Playlist>, channels: map<Id, Channel>, playlistId: Id, profileId: Id)
    : (r: Result<Playlist>)
    ensures r.Ok? <==> (playlistId in playlists && playlists[playlistId].channelId in channels
                        && channels[playlists[playlistId].channelId].profileId == profileId)
    ensures r.Ok? ==> r.value == playlists[playlistId]
    ensures playlistId !in playlists ==> r == Err(NotFound("Not found!"))
    ensures playlistId in playlists && playlists[playlistId].channelId !in channels ==> r == Err(EntityNotFound)
    ensures (playlistId in playlists && playlists[playlistId].channelId in channels
             && channels[playlists[playlistId].channelId].profileId != profileId) ==> r == Err(NotAccess)
  {
    match GetById(playlists, playlistId)
    case Err(e) => Err(e)
    case Ok(p) =>
      match OwnerOf(channels, p)
      case Err(e) => Err(e)
      case Ok(owner) => if owner == profileId then Ok(p) else Err(NotAccess)
  }

  /** The switch of changeStatus: PUBLIC and PRIVATE trade places. */
  function ToggleStatus(s: PlaylistStatus): (t: PlaylistStatus)
    ensures t != s
  {
    match s
    case PUBLIC => PlaylistStatus.PRIVATE
    case PRIVATE => PlaylistStatus.PUBLIC
  }

  /** Changing the status twice restores it. */
  lemma ToggleTwice(s: PlaylistStatus)
    ensures ToggleStatus(ToggleStatus(s)) == s
  {
  }

  /** `Sort.by(DESC, "orderNum")`. */
  predicate OrderNumDescending(a: Playlist, b: Playlist) {
    a.orderNum >= b.orderNum
  }

  class PlaylistService {
    /** The playlist table. Whatever constraint it carries, a violation is
        reported as "Unique!". */
    const playlists: Table<Playlist>
    const channels: Table<Channel>
    const profiles: Table<Profile>

    ghost predicate Valid()
      reads this, playlists
    {
      playlists.Valid()
    }

    constructor (playlists: Table<Playlist>, channels: Table<Channel>, profiles: Table<Profile>)
      requires playlists.Valid()
      ensures Valid()
      ensures this.playlists == playlists && this.channels == channels && this.profiles == profiles
    {
      this.playlists := playlists;
      this.channels := channels;
      this.profiles := profiles;
    }

    /** create: the owner of the channel adds a PUBLIC playlist at position
        `orderNum`. */
    method Create(name: string, description: string, orderNum: int, channelId: Id, profileId: Id)
      returns (r: Result<Id>)
      requires Valid()
      modifies playlists
      ensures Valid()
      ensures channelId !in channels.rows ==>
        r == Err(NotFound("Not found!")) && playlists.rows == old(playlists.rows)
      ensures channelId in channels.rows && channels.rows[channelId].profileId != profileId ==>
        r == Err(NotAccess) && playlists.rows == old(playlists.rows)
      ensures channelId in channels.rows && channels.rows[channelId].profileId == profileId ==>
        var entity := Playlist(name, description, PlaylistStatus.PUBLIC, orderNum, channelId, None);
        if old(playlists.Taken(entity, None))
        then r == Err(BadRequest("Unique!")) && playlists.rows == old(playlists.rows)
        else r.Ok? && r.value !in old(playlists.rows) && playlists.rows == old(playlists.rows)[r.value := entity]
    {
      var channel := Channels.GetById(channels.rows, channelId);
      if channel.Err? {
        return Err(channel.error);
      }
      if channel.value.profileId != profileId {
        return Err(NotAccess);
      }
      var entity := Playlist(name, description, PlaylistStatus.PUBLIC, orderNum, channelId, None);
      var saved := playlists.Insert(entity);
      if saved.Err? {
        return Err(BadRequest("Unique!"));
      }
      r := saved;
    }

    /** updateAbout: the owner changes the name, the description and the
        position; the playlist is stamped with `now`. */
    method UpdateAbout(playlistId: Id, name: string, description: string, orderNum: int, profileId: Id, now: Instant)
      returns (r: Result<Playlist>)
      requires Valid()
      modifies playlists
      ensures Valid()
      ensures OwnedPlaylist(old(playlists.rows), channels.rows, playlistId, profileId).Err? ==>
        r == Err(OwnedPlaylist(old(playlists.rows), channels.rows, playlistId, profileId).error)
        && playlists.rows == old(playlists.rows)
      ensures OwnedPlaylist(old(playlists.rows), channels.rows, playlistId, profileId).Ok? ==>
        var updated := old(playlists.rows)[playlistId].(name := name, description := description,
                                                        orderNum := orderNum, updatedDate := Some(now));
        if old(playlists.Taken(updated, Some(playlistId)))
        then r == Err(BadRequest("Unique!")) && playlists.rows == old(playlists.rows)
        else r == Ok(updated) && playlists.rows == old(playlists.rows)[playlistId := updated]
    {
      var entity := OwnedPlaylist(playlists.rows, channels.rows, playlistId, profileId);
      if entity.Err? {
        return Err(entity.error);
      }
      var updated := entity.value.(name := name, description := description, orderNum := orderNum, updatedDate := Some(now));
      var saved := playlists.Update(playlistId, updated);
      if saved.Err? {
        return Err(BadRequest("Unique!"));
      }
      r := Ok(updated);
    }

    /** changeStatus: the owner or an administrator toggles PUBLIC and
        PRIVATE. The caller must be a known profile. Nothing catches a
        constraint violation here. */
    method ChangeStatus(playlistId: Id, profileId: Id) returns (r: Result<bool>)
      requires Valid()
      modifies playlists
      ensures Valid()
      ensures playlistId !in old(playlists.rows) ==>
        r == Err(NotFound("Not found!")) && playlists.rows == old(playlists.rows)
      ensures playlistId in old(playlists.rows) && profileId !in profiles.rows ==>
        r == Err(NotFound("Not Found!")) && playlists.rows == old(playlists.rows)
      ensures (playlistId in old(playlists.rows) && profileId in profiles.rows
               && old(playlists.rows)[playlistId].channelId !in channels.rows) ==>
        r == Err(EntityNotFound) && playlists.rows == old(playlists.rows)
      ensures (playlistId in old(playlists.rows) && profileId in profiles.rows
               && old(playlists.rows)[playlistId].channelId in channels.rows) ==>
        var entity := old(playlists.rows)[playlistId];
        var updated := entity.(status := ToggleStatus(entity.status));
        if !(channels.rows[entity.channelId].profileId == profileId || profiles.rows[profileId].role == ADMIN)
        then r == Err(NotAccess) && playlists.rows == old(playlists.rows)
        else if old(playlists.Taken(updated, Some(playlistId)))
        then r == Err(IntegrityViolation) && playlists.rows == old(playlists.rows)
        else r == Ok(true) && playlists.rows == old(playlists.rows)[playlistId := updated]
    {
      var entity := GetById(playlists.rows, playlistId);
      if entity.Err? {
        return Err(entity.error);
      }
      var profile := Profiles.GetById(profiles.rows, profileId);
      if profile.Err? {
        return Err(profile.error);
      }
      var owner := OwnerOf(channels.rows, entity.value);
      if owner.Err? {
        return Err(owner.error);
      }
      if owner.value == profileId || profile.value.role == ADMIN {
        var updated := entity.value.(status := ToggleStatus(entity.value.status));
        var saved := playlists.Update(playlistId, updated);
        if saved.Err? {
          return Err(IntegrityViolation);
        }
        return Ok(true);
      }
      return Err(NotAccess);
    }

    /** channelPlaylist: the PUBLIC playlists of an existing channel, by
        position, highest first. */
    method ChannelPlaylist(channelId: Id) returns (r: Result<seq<Id>>)
      requires Valid()
      ensures r.Err? <==> channelId !in channels.rows
      ensures r.Err? ==> r.error == NotFound("Not found!")
      ensures r.Ok? ==>
        && (forall k :: k in r.value <==> k in playlists.rows && playlists.rows[k].channelId == channelId
                                          && playlists.rows[k].status == PlaylistStatus.PUBLIC)
        && Query.Distinct(r.value) && Query.SortedBy(r.value, playlists.rows, OrderNumDescending)
    {
      var channel := Channels.GetById(channels.rows, channelId);
      if channel.Err? {
        return Err(channel.error);
      }
      var ids := Query.OrderBy(playlists.rows,
        (p: Playlist) => p.channelId == channelId && p.status == PlaylistStatus.PUBLIC, OrderNumDescending);
      r := Ok(ids);
    }

    /** delete: the owner removes the playlist. */
    method Delete(playlistId: Id, profileId: Id) returns (r: Result<bool>)
      requires Valid()
      modifies playlists
      ensures Valid()
      ensures OwnedPlaylist(old(playlists.rows), channels.rows, playlistId, profileId).Err? ==>
        r == Err(OwnedPlaylist(old(playlists.rows), channels.rows, playlistId, profileId).error)
        && playlists.rows == old(playlists.rows)
      ensures OwnedPlaylist(old(playlists.rows), channels.rows, playlistId, profileId).Ok? ==>
        r == Ok(true) && playlists.rows == old(playlists.rows) - {playlistId}
    {
      var entity := OwnedPlaylist(playlists.rows, channels.rows, playlistId, profileId);
      if entity.Err? {
        return Err(entity.error);
      }
      playlists.Delete(playlistId);
      r := Ok(true);
    }
  }
}
