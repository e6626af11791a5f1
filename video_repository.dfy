/** VideoRepository: the update queries that change one column of one video
    row in place, and the finders that filter on id, status, title and the
    soft-delete flag `visible`. */
module VideoRepository {
  import opened Common
  import opened Entities
  import opened Tables
  import Query

  // What each `update VideoEntity set ... where id = :id` leaves in the table.
  // A query for an id with no row changes nothing.

  function WithStatus(rows: map<Id, Video>, id: Id, status: VideoStatus): (r: map<Id, Video>)
    ensures r.Keys == rows.Keys
    ensures id in r ==> r[id].status == status
    ensures forall k :: k in r ==> r[k].(status := rows[k].status) == rows[k]
    ensures forall k :: k in r && k != id ==> r[k] == rows[k]
  {
    if id in rows then rows[id := rows[id].(status := status)] else rows
  }

  function WithStatusAndPublishedDate(rows: map<Id, Video>, id: Id, status: VideoStatus, publishedDate: Instant)
    : (r: map<Id, Video>)
    ensures r.Keys == rows.Keys
    ensures id in r ==> r[id].status == status && r[id].publishedDate == Some(publishedDate)
    ensures forall k :: k in r ==>
      r[k].(status := rows[k].status, publishedDate := rows[k].publishedDate) == rows[k]
    ensures forall k :: k in r && k != id ==> r[k] == rows[k]
  {
    if id in rows then rows[id := rows[id].(status := status, publishedDate := Some(publishedDate))] else rows
  }

  function WithViewCounted(rows: map<Id, Video>, id: Id): (r: map<Id, Video>)
    ensures r.Keys == rows.Keys
    ensures id in r ==> r[id].viewCount == rows[id].viewCount + 1
    ensures forall k :: k in r ==> r[k].(viewCount := rows[k].viewCount) == rows[k]
    ensures forall k :: k in r && k != id ==> r[k] == rows[k]
  {
    if id in rows then rows[id := rows[id].(viewCount := rows[id].viewCount + 1)] else rows
  }

  function Hidden(rows: map<Id, Video>, id: Id): (r: map<Id, Video>)
    ensures r.Keys == rows.Keys
    ensures id in r ==> !r[id].visible
    ensures forall k :: k in r ==> r[k].(visible := rows[k].visible) == rows[k]
    ensures forall k :: k in r && k != id ==> r[k] == rows[k]
  {
    if id in rows then rows[id := rows[id].(visible := false)] else rows
  }

  function WithPreview(rows: map<Id, Video>, id: Id, attachId: Id): (r: map<Id, Video>)
    ensures r.Keys == rows.Keys
    ensures id in r ==> r[id].previewAttachId == Some(attachId)
    ensures forall k :: k in r ==> r[k].(previewAttachId := rows[k].previewAttachId) == rows[k]
    ensures forall k :: k in r && k != id ==> r[k] == rows[k]
  {
    if id in rows then rows[id := rows[id].(previewAttachId := Some(attachId))] else rows
  }

  /** updateVisible sets the flag to false rather than flipping it, so a
      second call changes nothing. */
  lemma HiddenIdempotent(rows: map<Id, Video>, id: Id)
    ensures Hidden(Hidden(rows, id), id) == Hidden(rows, id)
  {
  }

  /** findByIdAndVisible: the row with that id, if its flag has that value. */
  function FindByIdAndVisible(rows: map<Id, Video>, id: Id, visible: bool): (r: Option<Video>)
    ensures r.Some? <==> id in rows && rows[id].visible == visible
    ensures r.Some? ==> r.value == rows[id]
  {
    if id in rows && rows[id].visible == visible then Some(rows[id]) else None
  }

  /** findByIdAndStatusAndVisible: the row with that id, if both its status and
      its flag have the given values. */
  function FindByIdAndStatusAndVisible(rows: map<Id, Video>, id: Id, status: VideoStatus, visible: bool)
    : (r: Option<Video>)
    ensures r.Some? <==> id in rows && rows[id].status == status && rows[id].visible == visible
    ensures r.Some? ==> r.value == rows[id]
  {
    if id in rows && rows[id].status == status && rows[id].visible == visible then Some(rows[id]) else None
  }

  /** Once a video is hidden, no lookup for visible videos finds it, whatever
      its status. */
  lemma HiddenIsNotFound(rows: map<Id, Video>, id: Id, status: VideoStatus)
    ensures FindByIdAndVisible(Hidden(rows, id), id, true) == None
    ensures FindByIdAndStatusAndVisible(Hidden(rows, id), id, status, true) == None
  {
  }

  /** findAllByTitleAndStatusAndVisible with a Sort: the rows whose title is
      exactly `title` and whose status and flag match, each once, in the order
      `leq` gives. */
  method FindAllByTitleAndStatusAndVisible(
    rows: map<Id, Video>, title: string, status: VideoStatus, visible: bool, leq: (Video, Video) -> bool)
    returns (ids: seq<Id>)
    requires Query.TotalPreorder(leq)
    ensures forall k :: k in ids <==>
      k in rows && rows[k].title == title && rows[k].status == status && rows[k].visible == visible
    ensures Query.Distinct(ids) && Query.SortedBy(ids, rows, leq)
  {
    ids := Query.OrderBy(rows, (v: Video) => v.title == title && v.status == status && v.visible == visible, leq);
  }

  /** The video table rejects no update: it declares no unique column. */
  method UpdateStatus(videos: Table<Video>, status: VideoStatus, id: Id)
    requires videos.Valid() && Unconstrained(videos)
    modifies videos
    ensures videos.Valid()
    ensures videos.rows == WithStatus(old(videos.rows), id, status)
  {
    if id in videos.rows {
      var _ := videos.Update(id, videos.rows[id].(status := status));
    }
  }

  method UpdateStatusAndPublishedDate(videos: Table<Video>, status: VideoStatus, publishedDate: Instant, id: Id)
    requires videos.Valid() && Unconstrained(videos)
    modifies videos
    ensures videos.Valid()
    ensures videos.rows == WithStatusAndPublishedDate(old(videos.rows), id, status, publishedDate)
  {
    if id in videos.rows {
      var _ := videos.Update(id, videos.rows[id].(status := status, publishedDate := Some(publishedDate)));
    }
  }

  method UpdateViewCount(videos: Table<Video>, id: Id)
    requires videos.Valid() && Unconstrained(videos)
    modifies videos
    ensures videos.Valid()
    ensures videos.rows == WithViewCounted(old(videos.rows), id)
  {
    if id in videos.rows {
      var _ := videos.Update(id, videos.rows[id].(viewCount := videos.rows[id].viewCount + 1));
    }
  }

  method UpdateVisible(videos: Table<Video>, id: Id)
    requires videos.Valid() && Unconstrained(videos)
    modifies videos
    ensures videos.Valid()
    ensures videos.rows == Hidden(old(videos.rows), id)
  {
    if id in videos.rows {
      var _ := videos.Update(id, videos.rows[id].(visible := false));
    }
  }

  method UpdatePreviewPhoto(videos: Table<Video>, attachId: Id, id: Id)
    requires videos.Valid() && Unconstrained(videos)
    modifies videos
    ensures videos.Valid()
    ensures videos.rows == WithPreview(old(videos.rows), id, attachId)
  {
    if id in videos.rows {
      var _ := videos.Update(id, videos.rows[id].(previewAttachId := Some(attachId)));
    }
  }
}
