/** ChannelService: channels belong to the profile that created them; only
    that profile edits, decorates or deletes a channel, and the owner or an
    administrator may block and unblock it. */
module Channels {
  import opened Common
  import opened Entities
  import opened Tables
  import opened Attachments
  import Profiles

  /** getById: the channel, or "Not found!". */
  function GetById(rows: map<Id, Channel>, id: Id): (r: Result<Channel>)
    ensures r.Ok? <==> id in rows
    ensures r.Ok? ==> r.value == rows[id]
    ensures r.Err? ==> r.error == NotFound("Not found!")
  {
    if id in rows then Ok(rows[id]) else Err(NotFound("Not found!"))
  }

  /** toOpenUrl: the public link of a channel. */
  function OpenUrl(domain: string, id: string): (url: string)
    ensures url == Link(domain, "channel/", id)
  {
    domain + "channel/" + id
  }

  /** The switch of changeStatus: ACTIVE and BLOCK trade places. */
  function ToggleStatus(s: ChannelStatus): (t: ChannelStatus)
    ensures t != s
  {
    match s
    case ACTIVE => ChannelStatus.BLOCK
    case BLOCK => ChannelStatus.ACTIVE
  }

  /** Changing the status twice restores it. */
  lemma ToggleTwice(s: ChannelStatus)
    ensures ToggleStatus(ToggleStatus(s)) == s
  {
  }

  class ChannelService {
    const channels: Table<Channel>
    const profiles: Table<Profile>
    const attach: AttachService

    ghost predicate Valid()
      reads this, channels, attach, attach.attaches
    {
      && channels.Valid()
      && (forall a, b :: channels.clash(a, b) == ChannelsClash(a, b))
      && attach.Valid()
    }

    constructor (channels: Table<Channel>, profiles: Table<Profile>, attach: AttachService)
      requires channels.Valid() && (forall a, b :: channels.clash(a, b) == ChannelsClash(a, b))
      requires attach.Valid()
      ensures Valid()
      ensures this.channels == channels && this.profiles == profiles && this.attach == attach
    {
      this.channels := channels;
      this.profiles := profiles;
      this.attach := attach;
    }

    /** create: an ACTIVE channel owned by the caller, without photo or
        banner; a taken name is refused with "Unique!". */
    method Create(name: string, description: string, profileId: Id) returns (r: Result<Id>)
      requires Valid()
      modifies channels
      ensures Valid()
      ensures (exists k :: k in old(channels.rows) && old(channels.rows)[k].name == name) ==>
        r == Err(BadRequest("Unique!")) && channels.rows == old(channels.rows)
      ensures (forall k :: k in old(channels.rows) ==> old(channels.rows)[k].name != name) ==>
        && r.Ok? && r.value !in old(channels.rows)
        && channels.rows == old(channels.rows)[r.value :=
             Channel(name, description, None, None, ChannelStatus.ACTIVE, profileId, None)]
    {
      var entity := Channel(name, description, None, None, ChannelStatus.ACTIVE, profileId, None);
      var saved := channels.Insert(entity);
      if saved.Err? {
        return Err(BadRequest("Unique!"));
      }
      r := saved;
    }

    /** updateAbout: the owner renames and redescribes the channel; a name
        another channel has is refused with "Unique!". */
    method UpdateAbout(channelId: Id, name: string, description: string, profileId: Id, now: Instant)
      returns (r: Result<Channel>)
      requires Valid()
      modifies channels
      ensures Valid()
      ensures channelId !in old(channels.rows) ==>
        r == Err(NotFound("Not found!")) && channels.rows == old(channels.rows)
      ensures channelId in old(channels.rows) && old(channels.rows)[channelId].profileId != profileId ==>
        r == Err(NotAccess) && channels.rows == old(channels.rows)
      ensures channelId in old(channels.rows) && old(channels.rows)[channelId].profileId == profileId ==>
        var updated := old(channels.rows)[channelId].(name := name, description := description, updatedDate := Some(now));
        if exists k :: k in old(channels.rows) && k != channelId && old(channels.rows)[k].name == name
        then r == Err(BadRequest("Unique!")) && channels.rows == old(channels.rows)
        else r == Ok(updated) && channels.rows == old(channels.rows)[channelId := updated]
    {
      var entity := GetById(channels.rows, channelId);
      if entity.Err? {
        return Err(entity.error);
      }
      if entity.value.profileId != profileId {
        return Err(NotAccess);
      }
      var updated := entity.value.(name := name, description := description, updatedDate := Some(now));
      var saved := channels.Update(channelId, updated);
      if saved.Err? {
        var k :| k in channels.rows && Some(k) != Some(channelId) &&
          (channels.clash(channels.rows[k], updated) || channels.clash(updated, channels.rows[k]));
        assert channels.rows[k].name == name;
        return Err(BadRequest("Unique!"));
      }
      r := Ok(updated);
    }

    /** channelImage: the replace-attachment pattern on the channel photo,
        for the owner only. */
    method ChannelImage(attachId: Id, channelId: Id, profileId: Id) returns (r: Result<bool>)
      requires Valid()
      modifies channels, attach, attach.attaches
      ensures Valid()
      ensures attachId !in old(attach.attaches.rows) ==>
        r == Err(NotFound("Not found!")) && channels.rows == old(channels.rows)
        && attach.attaches.rows == old(attach.attaches.rows) && attach.disk == old(attach.disk)
      ensures attachId in old(attach.attaches.rows) && channelId !in old(channels.rows) ==>
        r == Err(NotFound("Not found!")) && channels.rows == old(channels.rows)
        && attach.attaches.rows == old(attach.attaches.rows) && attach.disk == old(attach.disk)
      ensures (attachId in old(attach.attaches.rows) && channelId in old(channels.rows)
               && old(channels.rows)[channelId].profileId != profileId) ==>
        r == Err(NotAccess) && channels.rows == old(channels.rows)
        && attach.attaches.rows == old(attach.attaches.rows) && attach.disk == old(attach.disk)
      ensures (attachId in old(attach.attaches.rows) && channelId in old(channels.rows)
               && old(channels.rows)[channelId].profileId == profileId) ==>
        var rep := ReplaceAttachment(old(channels.rows)[channelId].photoId, attachId);
        && channels.rows == old(channels.rows)[channelId := old(channels.rows)[channelId].(photoId := Some(attachId))]
        && StoreAfter(rep, old(attach.attaches.rows), old(attach.disk), attach.attaches.rows, attach.disk)
        && r == ReplaceResult(rep, old(attach.attaches.rows), old(attach.disk))
    {
      var attachEntity := attach.GetById(attachId);
      if attachEntity.Err? {
        return Err(attachEntity.error);
      }
      var entity := GetById(channels.rows, channelId);
      if entity.Err? {
        return Err(entity.error);
      }
      if entity.value.profileId != profileId {
        return Err(NotAccess);
      }
      match ReplaceAttachment(entity.value.photoId, attachId)
      case Keep =>
        assert channels.rows[channelId := entity.value.(photoId := Some(attachId))] == channels.rows;
        return Ok(true);
      case Replace(oldAttach) =>
        var _ := channels.Update(channelId, entity.value.(photoId := Some(attachId)));
        r := attach.Delete(oldAttach);
        if r.Err? {
          return;
        }
        return Ok(true);
      case SetFirst =>
        var _ := channels.Update(channelId, entity.value.(photoId := Some(attachId)));
        return Ok(true);
    }

    /** channelBanner: the same pattern on the channel banner. */
    method ChannelBanner(attachId: Id, channelId: Id, profileId: Id) returns (r: Result<bool>)
      requires Valid()
      modifies channels, attach, attach.attaches
      ensures Valid()
      ensures attachId !in old(attach.attaches.rows) ==>
        r == Err(NotFound("Not found!")) && channels.rows == old(channels.rows)
        && attach.attaches.rows == old(attach.attaches.rows) && attach.disk == old(attach.disk)
      ensures attachId in old(attach.attaches.rows) && channelId !in old(channels.rows) ==>
        r == Err(NotFound("Not found!")) && channels.rows == old(channels.rows)
        && attach.attaches.rows == old(attach.attaches.rows) && attach.disk == old(attach.disk)
      ensures (attachId in old(attach.attaches.rows) && channelId in old(channels.rows)
               && old(channels.rows)[channelId].profileId != profileId) ==>
        r == Err(NotAccess) && channels.rows == old(channels.rows)
        && attach.attaches.rows == old(attach.attaches.rows) && attach.disk == old(attach.disk)
      ensures (attachId in old(attach.attaches.rows) && channelId in old(channels.rows)
               && old(channels.rows)[channelId].profileId == profileId) ==>
        var rep := ReplaceAttachment(old(channels.rows)[channelId].bannerId, attachId);
        && channels.rows == old(channels.rows)[channelId := old(channels.rows)[channelId].(bannerId := Some(attachId))]
        && StoreAfter(rep, old(attach.attaches.rows), old(attach.disk), attach.attaches.rows, attach.disk)
        && r == ReplaceResult(rep, old(attach.attaches.rows), old(attach.disk))
    {
      var attachEntity := attach.GetById(attachId);
      if attachEntity.Err? {
        return Err(attachEntity.error);
      }
      var entity := GetById(channels.rows, channelId);
      if entity.Err? {
        return Err(entity.error);
      }
      if entity.value.profileId != profileId {
        return Err(NotAccess);
      }
      match ReplaceAttachment(entity.value.bannerId, attachId)
      case Keep =>
        assert channels.rows[channelId := entity.value.(bannerId := Some(attachId))] == channels.rows;
        return Ok(true);
      case Replace(oldAttach) =>
        var _ := channels.Update(channelId, entity.value.(bannerId := Some(attachId)));
        r := attach.Delete(oldAttach);
        if r.Err? {
          return;
        }
        return Ok(true);
      case SetFirst =>
        var _ := channels.Update(channelId, entity.value.(bannerId := Some(attachId)));
        return Ok(true);
    }

    /** changeStatus: the owner or an administrator toggles ACTIVE and
        BLOCK. The caller must be a known profile. */
    method ChangeStatus(channelId: Id, profileId: Id) returns (r: Result<bool>)
      requires Valid()
      modifies channels
      ensures Valid()
      ensures channelId !in old(channels.rows) ==>
        r == Err(NotFound("Not found!")) && channels.rows == old(channels.rows)
      ensures channelId in old(channels.rows) && profileId !in profiles.rows ==>
        r == Err(NotFound("Not Found!")) && channels.rows == old(channels.rows)
      ensures channelId in old(channels.rows) && profileId in profiles.rows ==>
        var entity := old(channels.rows)[channelId];
        if entity.profileId == profileId || profiles.rows[profileId].role == ADMIN
        then r == Ok(true) && channels.rows == old(channels.rows)[channelId := entity.(status := ToggleStatus(entity.status))]
        else r == Err(NotAccess) && channels.rows == old(channels.rows)
    {
      var entity := GetById(channels.rows, channelId);
      if entity.Err? {
        return Err(entity.error);
      }
      var profile := Profiles.GetById(profiles.rows, profileId);
      if profile.Err? {
        return Err(profile.error);
      }
      if entity.value.profileId == profileId || profile.value.role == ADMIN {
        var _ := channels.Update(channelId, entity.value.(status := ToggleStatus(entity.value.status)));
        return Ok(true);
      }
      return Err(NotAccess);
    }

    /** delete: the owner removes the channel, then its banner and its photo.
        The channel row is gone even when one of those fails; a channel
        without a banner or without a photo hands a null to delete, which
        fails with a NullPointerException. */
    method Delete(channelId: Id, profileId: Id) returns (r: Result<bool>)
      requires Valid()
      modifies channels, attach, attach.attaches
      ensures Valid()
      ensures channelId !in old(channels.rows) || old(channels.rows)[channelId].profileId != profileId ==>
        && r == (if channelId !in old(channels.rows) then Err(NotFound("Not found!")) else Err(NotAccess))
        && channels.rows == old(channels.rows)
        && attach.attaches.rows == old(attach.attaches.rows) && attach.disk == old(attach.disk)
      ensures channelId in old(channels.rows) && old(channels.rows)[channelId].profileId == profileId ==>
        var entity := old(channels.rows)[channelId];
        && channels.rows == old(channels.rows) - {channelId}
        && (r, attach.attaches.rows, attach.disk) ==
           DeleteInTurn([entity.bannerId, entity.photoId], old(attach.attaches.rows), old(attach.disk))
    {
      var entity := GetById(channels.rows, channelId);
      if entity.Err? {
        return Err(entity.error);
      }
      if entity.value.profileId != profileId {
        return Err(NotAccess);
      }
      channels.Delete(channelId);
      ghost var ids := [entity.value.bannerId, entity.value.photoId];
      ghost var rows0, disk0 := attach.attaches.rows, attach.disk;
      if entity.value.bannerId.None? {
        assert DeleteInTurn(ids, rows0, disk0) == (Err(NullPointer), rows0, disk0);
        return Err(NullPointer);
      }
      r := attach.Delete(entity.value.bannerId.value);
      assert ids[1..] == [entity.value.photoId];
      assert DeleteInTurn(ids, rows0, disk0) ==
        if r.Err? then (r, attach.attaches.rows, attach.disk)
        else DeleteInTurn([entity.value.photoId], attach.attaches.rows, attach.disk);
      if r.Err? {
        return;
      }
      ghost var rows1, disk1 := attach.attaches.rows, attach.disk;
      if entity.value.photoId.None? {
        assert DeleteInTurn([entity.value.photoId], rows1, disk1) == (Err(NullPointer), rows1, disk1);
        return Err(NullPointer);
      }
      r := attach.Delete(entity.value.photoId.value);
      assert DeleteInTurn([entity.value.photoId], rows1, disk1) ==
        if r.Err? then (r, attach.attaches.rows, attach.disk)
        else DeleteInTurn([], attach.attaches.rows, attach.disk);
      if r.Err? {
        return;
      }
      return Ok(true);
    }
  }
}
