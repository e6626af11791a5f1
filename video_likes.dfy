/** VideoLikeService: a profile likes or dislikes a visible video; a second
    reaction to the same video overwrites the first. */
module VideoLikes {
  import opened Common
  import opened Entities
  import opened Tables
  import opened VideoLikeRepository
  import Profiles
  import Videos

  /** getById: the like, or "Not found!". */
  function GetById(rows: map<Id, VideoLike>, id: Id): (r: Result<VideoLike>)
    ensures r.Ok? <==> id in rows
    ensures r.Ok? ==> r.value == rows[id]
    ensures r.Err? ==> r.error == NotFound("Not found!")
  {
    if id in rows then Ok(rows[id]) else Err(NotFound("Not found!"))
  }

  /** The checks create and get share, in their order: the profile exists
      and the video is visible. */
  function ReactionCheck(profiles: map<Id, Profile>, videos: map<Id, Video>, profileId: Id, videoId: Id)
    : (r: Result<()>)
    ensures r.Ok? <==> profileId in profiles && videoId in videos && videos[videoId].visible
    ensures profileId !in profiles ==> r == Err(NotFound("Not Found!"))
    ensures profileId in profiles && Videos.GetById(videos, videoId).Err? ==> r == Err(NotFound("Not found!"))
  {
    match Profiles.GetById(profiles, profileId)
    case Err(e) => Err(e)
    case Ok(_) =>
      match Videos.GetById(videos, videoId)
      case Err(e) => Err(e)
      case Ok(_) => Ok(())
  }

  /** get: the profile's reaction to the video; None stands for the empty
      answer given when there is none. */
  function Get(likes: map<Id, VideoLike>, profiles: map<Id, Profile>, videos: map<Id, Video>, videoId: Id, profileId: Id)
    : (r: Result<Option<VideoLike>>)
    requires OnePerPair(likes)
    ensures r.Err? <==> ReactionCheck(profiles, videos, profileId, videoId).Err?
    ensures r.Err? ==> r.error == ReactionCheck(profiles, videos, profileId, videoId).error
    ensures r.Ok? && r.value.Some? ==>
      (r.value.value.videoId == videoId && r.value.value.profileId == profileId
       && exists k :: k in likes && likes[k] == r.value.value)
    ensures r.Ok? && r.value.None? ==>
      forall k :: k in likes ==> !(likes[k].videoId == videoId && likes[k].profileId == profileId)
  {
    match ReactionCheck(profiles, videos, profileId, videoId)
    case Err(e) => Err(e)
    case Ok(_) =>
      match FindByVideoIdAndProfileId(likes, videoId, profileId)
      case None => Ok(None)
      case Some(k) => Ok(Some(likes[k]))
  }

  class VideoLikeService {
    const likes: Table<VideoLike>
    const profiles: Table<Profile>
    const videos: Table<Video>

    /** The like table declares no unique column; the service keeps one row
        per (video, profile) on its own, as long as its calls do not overlap. */
    ghost predicate Valid()
      reads this, likes
    {
      likes.Valid() && Unconstrained(likes) && OnePerPair(likes.rows)
    }

    constructor (likes: Table<VideoLike>, profiles: Table<Profile>, videos: Table<Video>)
      requires likes.Valid() && Unconstrained(likes) && OnePerPair(likes.rows)
      ensures Valid()
      ensures this.likes == likes && this.profiles == profiles && this.videos == videos
    {
      this.likes := likes;
      this.profiles := profiles;
      this.videos := videos;
    }

    /** create: the profile's existing reaction to the video takes the new
        type; without one, a new row records it. Either way the profile has
        exactly one reaction to the video afterwards, of that type. */
    method Create(videoId: Id, likeType: LikeType, profileId: Id) returns (r: Result<Id>)
      requires Valid()
      modifies likes
      ensures Valid()
      ensures ReactionCheck(profiles.rows, videos.rows, profileId, videoId).Err? ==>
        r == Err(ReactionCheck(profiles.rows, videos.rows, profileId, videoId).error) && likes.rows == old(likes.rows)
      ensures ReactionCheck(profiles.rows, videos.rows, profileId, videoId).Ok? ==>
        && r.Ok? && likes.rows == old(likes.rows)[r.value := VideoLike(profileId, videoId, likeType)]
        && (r.value in old(likes.rows) <==>
              exists k :: k in old(likes.rows) && old(likes.rows)[k].videoId == videoId && old(likes.rows)[k].profileId == profileId)
        && (r.value in old(likes.rows) ==> old(likes.rows)[r.value].videoId == videoId && old(likes.rows)[r.value].profileId == profileId)
    {
      var check := ReactionCheck(profiles.rows, videos.rows, profileId, videoId);
      if check.Err? {
        return Err(check.error);
      }
      var existing := FindByVideoIdAndProfileId(likes.rows, videoId, profileId);
      if existing.Some? {
        var entity := likes.rows[existing.value].(likeType := likeType);
        assert entity == VideoLike(profileId, videoId, likeType);
        var _ := likes.Update(existing.value, entity);
        assert OnePerPair(likes.rows) by {
          forall a, b | a in likes.rows && b in likes.rows && a != b ensures !SamePair(likes.rows[a], likes.rows[b]) {
            assert SamePair(likes.rows[a], old(likes.rows)[a]) && SamePair(likes.rows[b], old(likes.rows)[b]);
          }
        }
        return Ok(existing.value);
      }
      r := likes.Insert(VideoLike(profileId, videoId, likeType));
    }

    /** delete: the profile that left the like removes it. */
    method Delete(likeId: Id, profileId: Id) returns (r: Result<bool>)
      requires Valid()
      modifies likes
      ensures Valid()
      ensures likeId !in old(likes.rows) ==> r == Err(NotFound("Not found!")) && likes.rows == old(likes.rows)
      ensures likeId in old(likes.rows) && old(likes.rows)[likeId].profileId != profileId ==>
        r == Err(NotAccess) && likes.rows == old(likes.rows)
      ensures likeId in old(likes.rows) && old(likes.rows)[likeId].profileId == profileId ==>
        r == Ok(true) && likes.rows == old(likes.rows) - {likeId}
    {
      var entity := GetById(likes.rows, likeId);
      if entity.Err? {
        return Err(entity.error);
      }
      if entity.value.profileId != profileId {
        return Err(NotAccess);
      }
      likes.Delete(likeId);
      r := Ok(true);
    }
  }

  /** A reaction changes the video's counts as it should: a new one adds one
      row of the video, an overwritten one leaves the number of rows as it
      was. */
  lemma {:induction false} ReactionRowCount(rows: map<Id, VideoLike>, id: Id, like: VideoLike)
    ensures id !in rows ==> |RowsOfVideo(rows[id := like], like.videoId)| == |RowsOfVideo(rows, like.videoId)| + 1
    ensures id in rows && rows[id].videoId == like.videoId ==>
      |RowsOfVideo(rows[id := like], like.videoId)| == |RowsOfVideo(rows, like.videoId)|
  {
    if id !in rows {
      assert RowsOfVideo(rows[id := like], like.videoId) == RowsOfVideo(rows, like.videoId) + {id};
    } else if rows[id].videoId == like.videoId {
      assert RowsOfVideo(rows[id := like], like.videoId) == RowsOfVideo(rows, like.videoId);
    }
  }
}
