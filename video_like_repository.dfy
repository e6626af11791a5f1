/** VideoLikeRepository: the (video, profile) lookup and the two native
    aggregate queries over the video_like table. */
module VideoLikeRepository {
  import opened Common
  import opened Entities

  predicate SamePair(a: VideoLike, b: VideoLike) {
    a.videoId == b.videoId && a.profileId == b.profileId
  }

  /** At most one row per (video, profile). The table does not declare this
      constraint. VideoLikeService keeps it only while its calls run one at a
      time: its check-then-insert is not atomic, so two concurrent first
      reactions of a profile to a video can both insert. */
  ghost predicate OnePerPair(rows: map<Id, VideoLike>) {
    forall a, b :: a in rows && b in rows && a != b ==> !SamePair(rows[a], rows[b])
  }

  /** findByVideoIdAndProfileId: the like that profile left on that video.
      The finder expects at most one such row. */
  function FindByVideoIdAndProfileId(rows: map<Id, VideoLike>, videoId: Id, profileId: Id): (r: Option<Id>)
    requires OnePerPair(rows)
    ensures r.Some? ==> r.value in rows && rows[r.value].videoId == videoId && rows[r.value].profileId == profileId
    ensures r.None? ==> forall k :: k in rows ==> !(rows[k].videoId == videoId && rows[k].profileId == profileId)
  {
    if exists k :: k in rows && rows[k].videoId == videoId && rows[k].profileId == profileId then
      var k :| k in rows && rows[k].videoId == videoId && rows[k].profileId == profileId;
      Some(k)
    else None
  }

  /** The rows of one video: the ones `where video_id = :videoId` selects. */
  function RowsOfVideo(rows: map<Id, VideoLike>, videoId: Id): set<Id> {
    set k | k in rows && rows[k].videoId == videoId
  }

  /** The result row of getLikeCountByVideoId: `sum(case when type = 'LIKE'
      then 1 else 0 end)` and `sum(case when type = 'LIKE' then 0 else 1 end)`.
      A SUM over no rows is NULL, so a video without likes gets None. */
  datatype LikeCount = LikeCount(likeCount: Option<nat>, dislikeCount: Option<nat>)

  function GetLikeCountByVideoId(rows: map<Id, VideoLike>, videoId: Id): (r: LikeCount)
    ensures r.likeCount.None? <==> RowsOfVideo(rows, videoId) == {}
    ensures r.dislikeCount.None? <==> RowsOfVideo(rows, videoId) == {}
    ensures r.likeCount.Some? ==>
      r.likeCount.value == |set k | k in RowsOfVideo(rows, videoId) && rows[k].likeType == LIKE|
    ensures r.dislikeCount.Some? ==>
      r.dislikeCount.value == |set k | k in RowsOfVideo(rows, videoId) && rows[k].likeType != LIKE|
  {
    var selected := RowsOfVideo(rows, videoId);
    if selected == {} then LikeCount(None, None)
    else
      LikeCount(
        Some(|set k | k in selected && rows[k].likeType == LIKE|),
        Some(|set k | k in selected && rows[k].likeType != LIKE|))
  }

  /** Every row of the video is counted once, as a like or as a dislike. */
  lemma {:induction false} CountsAddUp(rows: map<Id, VideoLike>, videoId: Id)
    requires RowsOfVideo(rows, videoId) != {}
    ensures var c := GetLikeCountByVideoId(rows, videoId);
      c.likeCount.value + c.dislikeCount.value == |RowsOfVideo(rows, videoId)|
  {
    var selected := RowsOfVideo(rows, videoId);
    var likes := set k | k in selected && rows[k].likeType == LIKE;
    var dislikes := set k | k in selected && rows[k].likeType != LIKE;
    assert likes + dislikes == selected;
    assert likes * dislikes == {};
  }

  /** Rows of other videos do not change a video's counts. */
  lemma CountsOnlyOwnRows(rows: map<Id, VideoLike>, other: map<Id, VideoLike>, videoId: Id)
    requires forall k :: k in rows && rows[k].videoId == videoId <==> k in other && other[k].videoId == videoId
    requires forall k :: k in rows && rows[k].videoId == videoId ==> other[k] == rows[k]
    ensures GetLikeCountByVideoId(rows, videoId) == GetLikeCountByVideoId(other, videoId)
  {
    assert RowsOfVideo(rows, videoId) == RowsOfVideo(other, videoId);
    var selected := RowsOfVideo(rows, videoId);
    assert (set k | k in selected && rows[k].likeType == LIKE) == (set k | k in selected && other[k].likeType == LIKE);
    assert (set k | k in selected && rows[k].likeType != LIKE) == (set k | k in selected && other[k].likeType != LIKE);
  }

  /** getProfileLikesByVideoId: `group by type, profile_id` over the video's
      rows, one entry per distinct pair. */
  function GetProfileLikesByVideoId(rows: map<Id, VideoLike>, videoId: Id): (r: set<(LikeType, Id)>)
    ensures forall t, p :: (t, p) in r <==>
      exists k :: k in rows && rows[k].videoId == videoId && rows[k].likeType == t && rows[k].profileId == p
  {
    set k | k in rows && rows[k].videoId == videoId :: (rows[k].likeType, rows[k].profileId)
  }

  /** With one like per (video, profile), every row of the video shows up as
      its own entry. */
  lemma {:induction false} ProfileLikesOnePerRow(rows: map<Id, VideoLike>, videoId: Id)
    requires OnePerPair(rows)
    ensures |GetProfileLikesByVideoId(rows, videoId)| == |RowsOfVideo(rows, videoId)|
  {
    var selected := RowsOfVideo(rows, videoId);
    PairsOfRows(rows, videoId, selected);
    assert GetProfileLikesByVideoId(rows, videoId) ==
      set k | k in selected :: (rows[k].likeType, rows[k].profileId);
  }

  lemma {:induction false} PairsOfRows(rows: map<Id, VideoLike>, videoId: Id, ks: set<Id>)
    requires OnePerPair(rows)
    requires forall k :: k in ks ==> k in rows && rows[k].videoId == videoId
    ensures |set k | k in ks :: (rows[k].likeType, rows[k].profileId)| == |ks|
    decreases ks
  {
    if ks != {} {
      var k :| k in ks;
      var rest := ks - {k};
      PairsOfRows(rows, videoId, rest);
      var pair := (rows[k].likeType, rows[k].profileId);
      var restPairs := set j | j in rest :: (rows[j].likeType, rows[j].profileId);
      assert pair !in restPairs;
      assert (set j | j in ks :: (rows[j].likeType, rows[j].profileId)) == restPairs + {pair};
    }
  }
}
