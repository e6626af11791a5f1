/** VideoService: videos live in a channel and belong to the channel's owner.
    A video starts CREATED, is published once, then moves between PUBLIC and
    PRIVATE; it is deleted by hiding it. */
module Videos {
  import opened Common
  import opened Entities
  import opened Tables
  import opened Attachments
  import opened VideoRepository
  import Profiles
  import Channels
  import Categories

  /** getById: a visible video, or "Not found!". */
  function GetById(rows: map<Id, Video>, id: Id): (r: Result<Video>)
    ensures r.Ok? <==> id in rows && rows[id].visible
    ensures r.Ok? ==> r.value == rows[id]
    ensures r.Err? ==> r.error == NotFound("Not found!")
  {
    match FindByIdAndVisible(rows, id, true)
    case Some(v) => Ok(v)
    case None => Err(NotFound("Not found!"))
  }

  /** getByIdAndStatus: a visible video with that status, or "Not found!". */
  function GetByIdAndStatus(rows: map<Id, Video>, id: Id, status: VideoStatus): (r: Result<Video>)
    ensures r.Ok? <==> id in rows && rows[id].visible && rows[id].status == status
    ensures r.Ok? ==> r.value == rows[id]
    ensures r.Err? ==> r.error == NotFound("Not found!")
  {
    match FindByIdAndStatusAndVisible(rows, id, status, true)
    case Some(v) => Ok(v)
    case None => Err(NotFound("Not found!"))
  }

  /** toOpenUrl: the public link of a video. */
  function OpenUrl(domain: string, id: string): (url: string)
    ensures url == Link(domain, "video/public/", id)
  {
    domain + "video/public/" + id
  }

  /** A deleted video is gone for every lookup of the service. */
  lemma DeletedIsNotFound(rows: map<Id, Video>, id: Id, status: VideoStatus)
    ensures GetById(Hidden(rows, id), id) == Err(NotFound("Not found!"))
    ensures GetByIdAndStatus(Hidden(rows, id), id, status) == Err(NotFound("Not found!"))
  {
    HiddenIsNotFound(rows, id, status);
  }

  /** `entity.getChannel().getProfileId()`: the owner of the video's
      channel. The join is lazy: a missing channel row fails when the proxy
      is first read. */
  function OwnerOf(channels: map<Id, Channel>, v: Video): (r: Result<Id>)
    ensures r.Ok? <==> v.channelId in channels
    ensures r.Ok? ==> r.value == channels[v.channelId].profileId
    ensures r.Err? ==> r.error == EntityNotFound
  {
    if v.channelId in channels then Ok(channels[v.channelId].profileId) else Err(EntityNotFound)
  }

  /** The guard of updateAbout, updatePreviewPhoto and delete: the video is
      visible and the caller owns its channel. */
  function OwnedVideo(videos: map<Id, Video>, channels: map<Id, Channel>, videoId: Id, profileId: Id)
    : (r: Result<Video>)
    ensures r.Ok? <==> (videoId in videos && videos[videoId].visible
                        && videos[videoId].channelId in channels
                        && channels[videos[videoId].channelId].profileId == profileId)
    ensures r.Ok? ==> r.value == videos[videoId]
    ensures GetById(videos, videoId).Err? ==> r == Err(NotFound("Not found!"))
    ensures GetById(videos, videoId).Ok? && videos[videoId].channelId !in channels ==> r == Err(EntityNotFound)
    ensures (GetById(videos, videoId).Ok? && videos[videoId].channelId in channels
             && channels[videos[videoId].channelId].profileId != profileId) ==> r == Err(NotAccess)
  {
    match GetById(videos, videoId)
    case Err(e) => Err(e)
    case Ok(v) =>
      match OwnerOf(channels, v)
      case Err(e) => Err(e)
      case Ok(owner) => if owner == profileId then Ok(v) else Err(NotAccess)
  }

  /** The checks of create, in their order: the channel exists, the caller
      owns it, the category exists, the uploaded video file exists. */
  function CreateCheck(
    channels: map<Id, Channel>, categories: map<Id, Category>, attaches: map<Id, Attach>,
    channelId: Id, categoryId: Id, attachId: Id, profileId: Id): (r: Result<()>)
    ensures r.Ok? <==> (channelId in channels && channels[channelId].profileId == profileId
                        && categoryId in categories && attachId in attaches)
    ensures channelId !in channels ==> r == Err(NotFound("Not found!"))
    ensures channelId in channels && channels[channelId].profileId != profileId ==> r == Err(NotAccess)
    ensures channelId in channels && channels[channelId].profileId == profileId && categoryId !in categories ==>
      r == Err(NotFound("Not Found!"))
    ensures (channelId in channels && channels[channelId].profileId == profileId && categoryId in categories
             && attachId !in attaches) ==> r == Err(NotFound("Not found!"))
  {
    match Channels.GetById(channels, channelId)
    case Err(e) => Err(e)
    case Ok(channel) =>
      if channel.profileId != profileId then Err(NotAccess)
      else match Categories.GetById(categories, categoryId)
        case Err(e) => Err(e)
        case Ok(_) => if attachId in attaches then Ok(()) else Err(NotFound("Not found!"))
  }

  /** The switch of changeStatus: the first change publishes the video and
      records when; later changes move it between PUBLIC and PRIVATE. */
  function Transition(v: Video, now: Instant): (w: Video)
    ensures w.status != VideoStatus.CREATED
    ensures w.status == VideoStatus.PUBLIC <==> v.status != VideoStatus.PUBLIC
    ensures w.publishedDate == if v.status == VideoStatus.CREATED then Some(now) else v.publishedDate
    ensures w.(status := v.status, publishedDate := v.publishedDate) == v
  {
    match v.status
    case CREATED => v.(status := VideoStatus.PUBLIC, publishedDate := Some(now))
    case PUBLIC => v.(status := VideoStatus.PRIVATE)
    case PRIVATE => v.(status := VideoStatus.PUBLIC)
  }

  /** Once published, two status changes restore the video, publication date
      included: the date is set by the first change only. */
  lemma TransitionTwice(v: Video, first: Instant, second: Instant)
    ensures v.status != VideoStatus.CREATED ==> Transition(Transition(v, first), second) == v
    ensures Transition(Transition(v, first), second).publishedDate == Transition(v, first).publishedDate
  {
  }

  /** get: a visible video is shown to anyone while it is PUBLIC, and
      otherwise only to the owner of its channel or an administrator. The
      caller must be a known profile. */
  function Get(videos: map<Id, Video>, channels: map<Id, Channel>, profiles: map<Id, Profile>, id: Id, profileId: Id)
    : (r: Result<Video>)
    ensures GetById(videos, id).Err? ==> r == Err(NotFound("Not found!"))
    ensures GetById(videos, id).Ok? && profileId !in profiles ==> r == Err(NotFound("Not Found!"))
    ensures GetById(videos, id).Ok? && profileId in profiles && videos[id].channelId !in channels ==>
      r == Err(EntityNotFound)
    ensures GetById(videos, id).Ok? && profileId in profiles && videos[id].channelId in channels ==>
      && (r.Ok? <==> (|| channels[videos[id].channelId].profileId == profileId
                      || profiles[profileId].role == ADMIN
                      || videos[id].status == VideoStatus.PUBLIC))
      && (r.Ok? ==> r.value == videos[id])
      && (r.Err? ==> r.error == NotAccess)
  {
    match GetById(videos, id)
    case Err(e) => Err(e)
    case Ok(entity) =>
      match Profiles.GetById(profiles, profileId)
      case Err(e) => Err(e)
      case Ok(profile) =>
        match OwnerOf(channels, entity)
        case Err(e) => Err(e)
        case Ok(owner) =>
          if owner != profileId && entity.status == VideoStatus.PUBLIC then Ok(entity)
          else if owner == profileId || profile.role == ADMIN then Ok(entity)
          else Err(NotAccess)
  }

  /** The video rows updatePreviewPhoto leaves, as written: a new preview
      replacing another is stored on the video, but a first preview is stored
      on the row whose id is the video's own attachment id. */
  function PreviewAsWritten(rows: map<Id, Video>, videoId: Id, photoId: Id): (r: map<Id, Video>)
    requires videoId in rows
    ensures r.Keys == rows.Keys
  {
    match ReplaceAttachment(rows[videoId].previewAttachId, photoId)
    case Keep => rows
    case Replace(_) => WithPreview(rows, videoId, photoId)
    case SetFirst => WithPreview(rows, rows[videoId].attachId, photoId)
  }

  /** A first preview misses its video: the video still has no preview, and
      the video whose id equals the attachment id, if there is one, gets the
      preview instead. */
  lemma FirstPreviewMissesTheVideo(rows: map<Id, Video>, videoId: Id, photoId: Id)
    requires videoId in rows && rows[videoId].previewAttachId.None?
    requires rows[videoId].attachId != videoId
    ensures PreviewAsWritten(rows, videoId, photoId)[videoId].previewAttachId.None?
    ensures rows[videoId].attachId in rows ==>
      PreviewAsWritten(rows, videoId, photoId)[rows[videoId].attachId].previewAttachId == Some(photoId)
  {
  }

  /** The evident intent: whatever preview the video had, it now has the
      chosen one, and no other row changes. */
  function PreviewIntended(rows: map<Id, Video>, videoId: Id, photoId: Id): (r: map<Id, Video>)
    requires videoId in rows
    ensures r.Keys == rows.Keys
    ensures r[videoId].previewAttachId == Some(photoId)
    ensures r[videoId].(previewAttachId := rows[videoId].previewAttachId) == rows[videoId]
    ensures forall k :: k in r && k != videoId ==> r[k] == rows[k]
  {
    match ReplaceAttachment(rows[videoId].previewAttachId, photoId)
    case Keep => rows
    case Replace(_) => WithPreview(rows, videoId, photoId)
    case SetFirst => WithPreview(rows, videoId, photoId)
  }

  /** The two agree except on a video's first preview. */
  lemma PreviewAgreesOnceSet(rows: map<Id, Video>, videoId: Id, photoId: Id)
    requires videoId in rows && rows[videoId].previewAttachId.Some?
    ensures PreviewAsWritten(rows, videoId, photoId) == PreviewIntended(rows, videoId, photoId)
  {
  }

  class VideoService {
    const videos: Table<Video>
    const channels: Table<Channel>
    const categories: Table<Category>
    const profiles: Table<Profile>
    const attach: AttachService

    ghost predicate Valid()
      reads this, videos, attach, attach.attaches
    {
      && videos.Valid() && Unconstrained(videos)
      && attach.Valid()
    }

    constructor (videos: Table<Video>, channels: Table<Channel>, categories: Table<Category>,
                 profiles: Table<Profile>, attach: AttachService)
      requires videos.Valid() && Unconstrained(videos) && attach.Valid()
      ensures Valid()
      ensures this.videos == videos && this.channels == channels && this.categories == categories
      ensures this.profiles == profiles && this.attach == attach
    {
      this.videos := videos;
      this.channels := channels;
      this.categories := categories;
      this.profiles := profiles;
      this.attach := attach;
    }

    /** create: after the checks, a visible CREATED video with no views, no
        preview and no publication date. */
    method Create(title: string, description: string, categoryId: Id, attachId: Id, channelId: Id,
                  videoType: string, profileId: Id) returns (r: Result<Id>)
      requires Valid()
      modifies videos
      ensures Valid()
      ensures CreateCheck(channels.rows, categories.rows, attach.attaches.rows, channelId, categoryId, attachId, profileId).Err? ==>
        && r == Err(CreateCheck(channels.rows, categories.rows, attach.attaches.rows, channelId, categoryId, attachId, profileId).error)
        && videos.rows == old(videos.rows)
      ensures CreateCheck(channels.rows, categories.rows, attach.attaches.rows, channelId, categoryId, attachId, profileId).Ok? ==>
        && r.Ok? && r.value !in old(videos.rows)
        && videos.rows == old(videos.rows)[r.value := Video(title, description, categoryId, attachId, None, channelId,
             VideoStatus.CREATED, videoType, 0, None, true, None)]
    {
      var check := CreateCheck(channels.rows, categories.rows, attach.attaches.rows, channelId, categoryId, attachId, profileId);
      if check.Err? {
        return Err(check.error);
      }
      var entity := Video(title, description, categoryId, attachId, None, channelId,
        VideoStatus.CREATED, videoType, 0, None, true, None);
      r := videos.Insert(entity);
    }

    /** updateAbout: the owner changes the title and the description; the
        video is stamped with `now`. */
    method UpdateAbout(videoId: Id, title: string, description: string, profileId: Id, now: Instant)
      returns (r: Result<Video>)
      requires Valid()
      modifies videos
      ensures Valid()
      ensures OwnedVideo(old(videos.rows), channels.rows, videoId, profileId).Err? ==>
        r == Err(OwnedVideo(old(videos.rows), channels.rows, videoId, profileId).error)
        && videos.rows == old(videos.rows)
      ensures OwnedVideo(old(videos.rows), channels.rows, videoId, profileId).Ok? ==>
        var updated := old(videos.rows)[videoId].(title := title, description := description, updatedDate := Some(now));
        r == Ok(updated) && videos.rows == old(videos.rows)[videoId := updated]
    {
      var entity := OwnedVideo(videos.rows, channels.rows, videoId, profileId);
      if entity.Err? {
        return Err(entity.error);
      }
      var updated := entity.value.(title := title, description := description, updatedDate := Some(now));
      var _ := videos.Update(videoId, updated);
      r := Ok(updated);
    }

    /** changeStatus: the owner or an administrator moves the video to its
        next status. */
    method ChangeStatus(videoId: Id, profileId: Id, now: Instant) returns (r: Result<bool>)
      requires Valid()
      modifies videos
      ensures Valid()
      ensures GetById(old(videos.rows), videoId).Err? ==>
        r == Err(NotFound("Not found!")) && videos.rows == old(videos.rows)
      ensures GetById(old(videos.rows), videoId).Ok? && profileId !in profiles.rows ==>
        r == Err(NotFound("Not Found!")) && videos.rows == old(videos.rows)
      ensures (GetById(old(videos.rows), videoId).Ok? && profileId in profiles.rows
               && old(videos.rows)[videoId].channelId !in channels.rows) ==>
        r == Err(EntityNotFound) && videos.rows == old(videos.rows)
      ensures (GetById(old(videos.rows), videoId).Ok? && profileId in profiles.rows
               && old(videos.rows)[videoId].channelId in channels.rows) ==>
        var entity := old(videos.rows)[videoId];
        if channels.rows[entity.channelId].profileId == profileId || profiles.rows[profileId].role == ADMIN
        then r == Ok(true) && videos.rows == old(videos.rows)[videoId := Transition(entity, now)]
        else r == Err(NotAccess) && videos.rows == old(videos.rows)
    {
      var entity := GetById(videos.rows, videoId);
      if entity.Err? {
        return Err(entity.error);
      }
      var profile := Profiles.GetById(profiles.rows, profileId);
      if profile.Err? {
        return Err(profile.error);
      }
      var owner := OwnerOf(channels.rows, entity.value);
      if owner.Err? {
        return Err(owner.error);
      }
      if owner.value == profileId || profile.value.role == ADMIN {
        match entity.value.status {
          case CREATED => UpdateStatusAndPublishedDate(videos, VideoStatus.PUBLIC, now, videoId);
          case PUBLIC => UpdateStatus(videos, VideoStatus.PRIVATE, videoId);
          case PRIVATE => UpdateStatus(videos, VideoStatus.PUBLIC, videoId);
        }
        return Ok(true);
      }
      return Err(NotAccess);
    }

    /** updatePreviewPhoto as written: the chosen picture must exist and the
        caller must own the video; then the replace-attachment pattern runs
        on the preview, with the first preview misdirected. */
    method UpdatePreviewPhoto(photoId: Id, videoId: Id, profileId: Id) returns (r: Result<bool>)
      requires Valid()
      modifies videos, attach, attach.attaches
      ensures Valid()
      ensures photoId !in old(attach.attaches.rows) ==>
        r == Err(NotFound("Not found!")) && videos.rows == old(videos.rows)
        && attach.attaches.rows == old(attach.attaches.rows) && attach.disk == old(attach.disk)
      ensures photoId in old(attach.attaches.rows) && OwnedVideo(old(videos.rows), channels.rows, videoId, profileId).Err? ==>
        r == Err(OwnedVideo(old(videos.rows), channels.rows, videoId, profileId).error) && videos.rows == old(videos.rows)
        && attach.attaches.rows == old(attach.attaches.rows) && attach.disk == old(attach.disk)
      ensures photoId in old(attach.attaches.rows) && OwnedVideo(old(videos.rows), channels.rows, videoId, profileId).Ok? ==>
        var rep := ReplaceAttachment(old(videos.rows)[videoId].previewAttachId, photoId);
        && videos.rows == PreviewAsWritten(old(videos.rows), videoId, photoId)
        && StoreAfter(rep, old(attach.attaches.rows), old(attach.disk), attach.attaches.rows, attach.disk)
        && r == ReplaceResult(rep, old(attach.attaches.rows), old(attach.disk))
    {
      var attachEntity := attach.GetById(photoId);
      if attachEntity.Err? {
        return Err(attachEntity.error);
      }
      var entity := OwnedVideo(videos.rows, channels.rows, videoId, profileId);
      if entity.Err? {
        return Err(entity.error);
      }
      match ReplaceAttachment(entity.value.previewAttachId, photoId)
      case Keep =>
        return Ok(true);
      case Replace(oldAttach) =>
        VideoRepository.UpdatePreviewPhoto(videos, photoId, videoId);
        r := attach.Delete(oldAttach);
        if r.Err? {
          return;
        }
        return Ok(true);
      case SetFirst =>
        VideoRepository.UpdatePreviewPhoto(videos, photoId, entity.value.attachId);
        return Ok(true);
    }

    /** updatePreviewPhoto as evidently intended: the first preview is stored
        on the video itself. */
    method UpdatePreviewPhotoIntended(photoId: Id, videoId: Id, profileId: Id) returns (r: Result<bool>)
      requires Valid()
      modifies videos, attach, attach.attaches
      ensures Valid()
      ensures photoId !in old(attach.attaches.rows) ==>
        r == Err(NotFound("Not found!")) && videos.rows == old(videos.rows)
        && attach.attaches.rows == old(attach.attaches.rows) && attach.disk == old(attach.disk)
      ensures photoId in old(attach.attaches.rows) && OwnedVideo(old(videos.rows), channels.rows, videoId, profileId).Err? ==>
        r == Err(OwnedVideo(old(videos.rows), channels.rows, videoId, profileId).error) && videos.rows == old(videos.rows)
        && attach.attaches.rows == old(attach.attaches.rows) && attach.disk == old(attach.disk)
      ensures photoId in old(attach.attaches.rows) && OwnedVideo(old(videos.rows), channels.rows, videoId, profileId).Ok? ==>
        var rep := ReplaceAttachment(old(videos.rows)[videoId].previewAttachId, photoId);
        && videos.rows == PreviewIntended(old(videos.rows), videoId, photoId)
        && StoreAfter(rep, old(attach.attaches.rows), old(attach.disk), attach.attaches.rows, attach.disk)
        && r == ReplaceResult(rep, old(attach.attaches.rows), old(attach.disk))
    {
      var attachEntity := attach.GetById(photoId);
      if attachEntity.Err? {
        return Err(attachEntity.error);
      }
      var entity := OwnedVideo(videos.rows, channels.rows, videoId, profileId);
      if entity.Err? {
        return Err(entity.error);
      }
      match ReplaceAttachment(entity.value.previewAttachId, photoId)
      case Keep =>
        return Ok(true);
      case Replace(oldAttach) =>
        VideoRepository.UpdatePreviewPhoto(videos, photoId, videoId);
        r := attach.Delete(oldAttach);
        if r.Err? {
          return;
        }
        return Ok(true);
      case SetFirst =>
        VideoRepository.UpdatePreviewPhoto(videos, photoId, videoId);
        return Ok(true);
    }

    /** updateViewCount: one more view of a PUBLIC visible video. */
    method UpdateViewCount(videoId: Id) returns (r: Result<()>)
      requires Valid()
      modifies videos
      ensures Valid()
      ensures GetByIdAndStatus(old(videos.rows), videoId, VideoStatus.PUBLIC).Err? ==>
        r == Err(NotFound("Not found!")) && videos.rows == old(videos.rows)
      ensures GetByIdAndStatus(old(videos.rows), videoId, VideoStatus.PUBLIC).Ok? ==>
        r == Ok(()) && videos.rows == WithViewCounted(old(videos.rows), videoId)
    {
      var entity := GetByIdAndStatus(videos.rows, videoId, VideoStatus.PUBLIC);
      if entity.Err? {
        return Err(entity.error);
      }
      VideoRepository.UpdateViewCount(videos, videoId);
      r := Ok(());
    }

    /** delete: the owner hides the video, then deletes its video file and
        its preview. The video stays hidden when a deletion fails. */
    method Delete(videoId: Id, profileId: Id) returns (r: Result<bool>)
      requires Valid()
      modifies videos, attach, attach.attaches
      ensures Valid()
      ensures OwnedVideo(old(videos.rows), channels.rows, videoId, profileId).Err? ==>
        r == Err(OwnedVideo(old(videos.rows), channels.rows, videoId, profileId).error) && videos.rows == old(videos.rows)
        && attach.attaches.rows == old(attach.attaches.rows) && attach.disk == old(attach.disk)
      ensures OwnedVideo(old(videos.rows), channels.rows, videoId, profileId).Ok? ==>
        var entity := old(videos.rows)[videoId];
        var files := [Some(entity.attachId)] + if entity.previewAttachId.Some? then [entity.previewAttachId] else [];
        && videos.rows == Hidden(old(videos.rows), videoId)
        && (r, attach.attaches.rows, attach.disk) == DeleteInTurn(files, old(attach.attaches.rows), old(attach.disk))
    {
      var entity := OwnedVideo(videos.rows, channels.rows, videoId, profileId);
      if entity.Err? {
        return Err(entity.error);
      }
      UpdateVisible(videos, videoId);
      ghost var rows0, disk0 := attach.attaches.rows, attach.disk;
      ghost var more := if entity.value.previewAttachId.Some? then [entity.value.previewAttachId] else [];
      r := attach.Delete(entity.value.attachId);
      assert DeleteInTurn([Some(entity.value.attachId)] + more, rows0, disk0) ==
        if r.Err? then (r, attach.attaches.rows, attach.disk)
        else DeleteInTurn(more, attach.attaches.rows, attach.disk)
      by {
        assert ([Some(entity.value.attachId)] + more)[1..] == more;
      }
      if r.Err? {
        return;
      }
      if entity.value.previewAttachId.Some? {
        ghost var rows1, disk1 := attach.attaches.rows, attach.disk;
        r := attach.Delete(entity.value.previewAttachId.value);
        assert DeleteInTurn(more, rows1, disk1) ==
          if r.Err? then (r, attach.attaches.rows, attach.disk)
          else DeleteInTurn([], attach.attaches.rows, attach.disk)
        by {
          assert more[1..] == [];
        }
        if r.Err? {
          return;
        }
      }
      return Ok(true);
    }
  }
}
