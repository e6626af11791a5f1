/** PlaylistVideoRepository: the read queries over the playlist_video table,
    whose rows put a video into a playlist at a position `orderNum`. */
module PlaylistVideoRepository {
  import opened Common
  import opened Entities
  import Query

  /** The table's unique constraint on (video_id, playlist_id). */
  ghost predicate OnePerPair(rows: map<Id, PlaylistVideo>) {
    forall a, b :: a in rows && b in rows && a != b ==> !PlaylistVideosClash(rows[a], rows[b])
  }

  /** findByPlaylistIdAndVideoId: the row putting that video into that
      playlist, if there is one. */
  function FindByPlaylistIdAndVideoId(rows: map<Id, PlaylistVideo>, playlistId: Id, videoId: Id): (r: Option<Id>)
    requires OnePerPair(rows)
    ensures r.Some? ==> r.value in rows && rows[r.value].playlistId == playlistId && rows[r.value].videoId == videoId
    ensures r.None? ==> forall k :: k in rows ==> !(rows[k].playlistId == playlistId && rows[k].videoId == videoId)
  {
    if exists k :: k in rows && rows[k].playlistId == playlistId && rows[k].videoId == videoId then
      var k :| k in rows && rows[k].playlistId == playlistId && rows[k].videoId == videoId;
      Some(k)
    else None
  }

  /** The rows of one playlist. */
  function RowsOfPlaylist(rows: map<Id, PlaylistVideo>, playlistId: Id): set<Id> {
    set k | k in rows && rows[k].playlistId == playlistId
  }

  /** getVideoCountByPlaylistId: `count(id)` over the playlist's rows. */
  function GetVideoCountByPlaylistId(rows: map<Id, PlaylistVideo>, playlistId: Id): (n: nat)
    ensures n == 0 <==> forall k :: k in rows ==> rows[k].playlistId != playlistId
    ensures n <= |rows|
  {
    var mine := RowsOfPlaylist(rows, playlistId);
    assert |mine| <= |rows| by {
      SubsetNoLarger(mine, rows.Keys);
    }
    assert forall k :: k in rows && rows[k].playlistId == playlistId ==> k in mine;
    |mine|
  }

  lemma {:induction false} SubsetNoLarger(a: set<Id>, b: set<Id>)
    requires a <= b
    ensures |a| <= |b|
  {
    if a != {} {
      var x :| x in a;
      SubsetNoLarger(a - {x}, b - {x});
    }
  }

  /** `order_num` ascending; rows with equal numbers come in either order. */
  predicate OrderNumAscending(a: PlaylistVideo, b: PlaylistVideo) {
    a.orderNum <= b.orderNum
  }

  /** findAllByPlaylistId with a Sort: exactly the playlist's rows, each once,
      in the order `leq` gives. */
  method FindAllByPlaylistId(rows: map<Id, PlaylistVideo>, playlistId: Id, leq: (PlaylistVideo, PlaylistVideo) -> bool)
    returns (ids: seq<Id>)
    requires Query.TotalPreorder(leq)
    ensures forall k :: k in ids <==> k in RowsOfPlaylist(rows, playlistId)
    ensures Query.Distinct(ids) && Query.SortedBy(ids, rows, leq)
    ensures |ids| == GetVideoCountByPlaylistId(rows, playlistId)
  {
    var inPlaylist := (v: PlaylistVideo) => v.playlistId == playlistId;
    ids := Query.OrderBy(rows, inPlaylist, leq);
    assert Query.Selected(rows, inPlaylist) == RowsOfPlaylist(rows, playlistId);
  }

  /** getTop2VideoByPlaylistId: `order by order_num limit 2` over the
      playlist's rows. It lists two of them (fewer when the playlist is
      shorter), in ascending order, and no row left out comes before a row
      listed. */
  method GetTop2VideoByPlaylistId(rows: map<Id, PlaylistVideo>, playlistId: Id) returns (ids: seq<Id>)
    ensures |ids| == if GetVideoCountByPlaylistId(rows, playlistId) < 2 then GetVideoCountByPlaylistId(rows, playlistId) else 2
    ensures forall k :: k in ids ==> k in RowsOfPlaylist(rows, playlistId)
    ensures Query.Distinct(ids) && Query.SortedBy(ids, rows, OrderNumAscending)
    ensures forall k, i :: k in RowsOfPlaylist(rows, playlistId) && k !in ids && 0 <= i < |ids| ==>
      rows[ids[i]].orderNum <= rows[k].orderNum
  {
    var all := FindAllByPlaylistId(rows, playlistId, OrderNumAscending);
    var n := if |all| < 2 then |all| else 2;
    ids := all[..n];
    forall k, i | k in RowsOfPlaylist(rows, playlistId) && k !in ids && 0 <= i < |ids|
      ensures rows[ids[i]].orderNum <= rows[k].orderNum
    {
      var j :| 0 <= j < |all| && all[j] == k;
      assert OrderNumAscending(rows[all[i]], rows[all[j]]);
    }
  }
}
