/** The rows of the relational schema, one record per entity class, holding
    the columns the services read or write. `createdDate` (set by the
    database) and the lazily joined objects are not fields: a join is a lookup
    in the other table. */
module Entities {
  import opened Common

  datatype ProfileStatus = ACTIVE | BLOCK | INACTIVE
  datatype ChannelStatus = ACTIVE | BLOCK
  datatype VideoStatus = CREATED | PUBLIC | PRIVATE
  datatype PlaylistStatus = PUBLIC | PRIVATE
  datatype LikeType = LIKE | DISLIKE

  datatype Profile = Profile(
    name: string, surname: string, email: string, password: string,
    attachId: Option<Id>, status: ProfileStatus, role: Role,
    updatedDate: Option<Instant>)

  datatype Channel = Channel(
    name: string, description: string, photoId: Option<Id>,
    bannerId: Option<Id>, status: ChannelStatus, profileId: Id,
    updatedDate: Option<Instant>)

  /** `videoType` is the name of a VideoType constant; that enum is not part of
      this model. */
  datatype Video = Video(
    title: string, description: string, categoryId: Id, attachId: Id,
    previewAttachId: Option<Id>, channelId: Id, status: VideoStatus,
    videoType: string, viewCount: int, publishedDate: Option<Instant>,
    visible: bool, updatedDate: Option<Instant>)

  datatype Playlist = Playlist(
    name: string, description: string, status: PlaylistStatus,
    orderNum: int, channelId: Id, updatedDate: Option<Instant>)

  datatype PlaylistVideo = PlaylistVideo(
    videoId: Id, playlistId: Id, orderNum: int, updatedDate: Option<Instant>)

  datatype VideoLike = VideoLike(profileId: Id, videoId: Id, likeType: LikeType)

  datatype Tag = Tag(name: string, updatedDate: Option<Instant>)

  datatype Category = Category(name: string, updatedDate: Option<Instant>)

  datatype Attach = Attach(path: string, extension: string, originalName: string, fileSize: int)

  // The unique columns the entity classes declare: two rows clash when they
  // agree on them.

  predicate ChannelsClash(a: Channel, b: Channel) { a.name == b.name }

  predicate ProfilesClash(a: Profile, b: Profile) { a.email == b.email }

  predicate CategoriesClash(a: Category, b: Category) { a.name == b.name }

  predicate PlaylistVideosClash(a: PlaylistVideo, b: PlaylistVideo) {
    a.videoId == b.videoId && a.playlistId == b.playlistId
  }
}
